/** The URL rewrite `converter_para_csv`: a Google Sheets share link becomes the
    link that downloads the sheet as CSV. */
module SheetUrl {
  import opened Wrappers
  import opened Text

  const EXPORT_PREFIX: string := "https://docs.google.com/spreadsheets/d/"
  const EXPORT_SUFFIX: string := "/export?format=csv"
  const ID_MARKER: string := "/d/"

  /** `converter_para_csv(url)` as written: split on "/d/", take the second piece,
      split that on "/" and keep its first piece. None stands for the IndexError
      raised at `parts[1]` when the URL has no "/d/". */
  function CsvExportUrl(url: string): (r: Option<string>)
    ensures r.Some? <==> IndexOf(url, ID_MARKER).Some?
    ensures r.Some? ==> exists id :: r.value == EXPORT_PREFIX + id + EXPORT_SUFFIX && IndexOf(id, "/").None?
  {
    var parts := Split(url, ID_MARKER);
    if |parts| < 2 then None
    else
      var id := Split(parts[1], "/")[0];
      SplitPiecesAvoidSeparator(parts[1], "/");
      Some(EXPORT_PREFIX + id + EXPORT_SUFFIX)
  }

  /** The text from the start of `t` up to, not including, its first "/". */
  function UpToSlash(t: string): (r: string)
  {
    match IndexOf(t, "/")
    case None => t
    case Some(j) => t[..j]
  }

  /** The sheet identifier: the text after the first "/d/" up to the next "/". */
  function SheetId(url: string): Option<string>
  {
    match IndexOf(url, ID_MARKER)
    case None => None
    case Some(k) => Some(UpToSlash(url[k + |ID_MARKER|..]))
  }

  /** Cutting `t` at a "/" (or at its end) does not change the text before its first "/". */
  lemma UpToSlashOfPrefix(t: string, m: nat)
    requires m <= |t|
    requires m < |t| ==> t[m] == '/'
    ensures UpToSlash(t[..m]) == UpToSlash(t)
  {
    var p := t[..m];
    if m == |t| {
      assert p == t;
    } else {
      assert OccursAt(t, "/", m) by {
        assert t[m..m + 1] == [t[m]];
      }
      var j := IndexOf(t, "/").value;
      forall i | 0 <= i < j && i + 1 <= m ensures !OccursAt(p, "/", i) {
        OccursInPrefix(t, "/", m, i);
      }
      if j < m {
        OccursInPrefix(t, "/", m, j);
        FirstOccurrence(p, "/", j);
      } else {
        forall i | OccursAt(p, "/", i) ensures false {
          OccursInPrefix(t, "/", m, i);
        }
        NoOccurrence(p, "/");
      }
    }
  }

  /** The rewrite as written yields the sheet identifier: it fails exactly when the
      URL has no "/d/", and otherwise wraps the sheet identifier in the export URL. */
  lemma CsvExportUrlIsSheetId(url: string)
    ensures CsvExportUrl(url) == match SheetId(url)
                                 case None => None
                                 case Some(id) => Some(EXPORT_PREFIX + id + EXPORT_SUFFIX)
  {
    match IndexOf(url, ID_MARKER)
    case None =>
    case Some(k) =>
      var rest := url[k + |ID_MARKER|..];
      var piece := Split(rest, ID_MARKER)[0];
      assert Split(url, ID_MARKER)[1] == piece;
      match IndexOf(rest, ID_MARKER)
      case None =>
        UpToSlashOfPrefix(rest, |rest|);
      case Some(m) =>
        assert rest[m..m + 3] == ID_MARKER;
        assert rest[m] == rest[m..m + 3][0] == '/';
        UpToSlashOfPrefix(rest, m);
  }
}
