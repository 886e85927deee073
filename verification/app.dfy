/** Request routing (src/components/App.tsx): the index from paths to records, and the choice
    between the home page, a record's page and an empty main region. */
module App {
  import opened Wrappers
  import opened Content
  import opened Model
  import opened Render
  import opened Pages

  /** A record the index lists: its path is defined and not empty (an empty path is falsy). */
  predicate Addressable(r: Record, local: bool) {
    PageHref(r, local).Some? && PageHref(r, local).value != ""
  }

  /** `r` is listed under `path`. */
  predicate ListedAt(r: Record, path: string, local: bool) {
    Addressable(r, local) && PageHref(r, local).value == path
  }

  /** The index of the last record of `items` listed under `path`, if any. */
  function LastListedAt(items: seq<Record>, path: string, local: bool): (i: Option<nat>)
    ensures i.Some? ==> i.value < |items| && ListedAt(items[i.value], path, local)
    ensures i.Some? ==> forall j | i.value < j < |items| :: !ListedAt(items[j], path, local)
    ensures i.None? ==> forall j | 0 <= j < |items| :: !ListedAt(items[j], path, local)
  {
    if items == [] then None
    else if ListedAt(items[|items| - 1], path, local) then Some(|items| - 1)
    else
      var earlier := items[..|items| - 1];
      assert forall j | 0 <= j < |earlier| :: earlier[j] == items[j];
      LastListedAt(earlier, path, local)
  }

  /** The map from paths to records, filled in collection order so that a later record
      replaces an earlier one with the same path. */
  function PathIndex(items: seq<Record>, local: bool): map<string, Record> {
    if items == [] then map[]
    else
      var earlier := PathIndex(items[..|items| - 1], local);
      var last := items[|items| - 1];
      if Addressable(last, local) then earlier[PageHref(last, local).value := last] else earlier
  }

  /** The index holds exactly the paths of the listed records, and each path leads to the last
      record listed under it. */
  lemma {:induction false} PathIndexLookup(items: seq<Record>, path: string, local: bool)
    ensures path in PathIndex(items, local) <==> LastListedAt(items, path, local).Some?
    ensures path in PathIndex(items, local) ==>
      PathIndex(items, local)[path] == items[LastListedAt(items, path, local).value]
  {
    if items != [] {
      PathIndexLookup(items[..|items| - 1], path, local);
    }
  }

  /** A path is in the index exactly when some record is listed under it. */
  lemma PathIndexKeys(items: seq<Record>, path: string, local: bool)
    ensures path in PathIndex(items, local) <==> exists i | 0 <= i < |items| :: ListedAt(items[i], path, local)
  {
    PathIndexLookup(items, path, local);
  }

  /** When two records share a path, the earlier one is shadowed: the path leads to the later
      one or to a record listed there after it. */
  lemma LaterRecordWins(items: seq<Record>, i: nat, j: nat, local: bool)
    requires i < j < |items|
    requires Addressable(items[i], local) && Addressable(items[j], local)
    requires PageHref(items[i], local) == PageHref(items[j], local)
    ensures var path := PageHref(items[j], local).value;
      && path in PathIndex(items, local)
      && exists k | j <= k < |items| :: PathIndex(items, local)[path] == items[k] && ListedAt(items[k], path, local)
  {
    var path := PageHref(items[j], local).value;
    PathIndexLookup(items, path, local);
    var k := LastListedAt(items, path, local).value;
    assert j <= k;
  }

  /** `Main`: the home page at "/"; the page of the record listed under `path`, if any;
      otherwise an empty main region. */
  function Main(items: seq<Record>, path: string, cfg: Config): (r: Result<Out, Error>)
    ensures path == "/" ==>
      r == (match HomePage(items, cfg) case Success(home) => Success(Elem("main", map[], [home])) case Failure(e) => Failure(e))
    ensures path != "/" && LastListedAt(items, path, cfg.localAssets).None? ==> r == Success(Elem("main", map[], []))
    ensures path != "/" && LastListedAt(items, path, cfg.localAssets).Some? ==>
      var page := items[LastListedAt(items, path, cfg.localAssets).value];
      r == if PageReady(items, page) then Success(Elem("main", map[], Page(items, page, cfg))) else Failure(MalformedPage)
  {
    var pages := PathIndex(items, cfg.localAssets);
    PathIndexLookup(items, path, cfg.localAssets);
    if path == "/" then
      var home :- HomePage(items, cfg);
      Success(Elem("main", map[], [home]))
    else if path in pages then
      var page := pages[path];
      if PageReady(items, page) then Success(Elem("main", map[], Page(items, page, cfg)))
      else Failure(MalformedPage)
    else Success(Elem("main", map[], []))
  }
}
