/**
 * The search filter: a title search through the gateway, reduced to page
 * references that carry a title.
 */
module Search {
  import opened Wrappers
  import opened Notion

  /**
   * A page's title: the first run of the "title" property when that is a
   * title property (even an empty one); only otherwise that of "Name".
   */
  function PageTitle(properties: map<string, Property>): string {
    if "title" in properties && properties["title"].TitleProperty? then
      FirstRun(properties["title"].runs)
    else if "Name" in properties && properties["Name"].TitleProperty? then
      FirstRun(properties["Name"].runs)
    else ""
  }

  /** The id and title of one search result; blocks and databases get no title. */
  function Resolve(o: SearchObject): PageInfo {
    match o
    case PageObject(id, properties) => PageInfo(id, PageTitle(properties))
    case BlockObject(id) => PageInfo(id, "")
    case DatabaseObject(id) => PageInfo(id, "")
    case UnknownObject => PageInfo("", "")
  }

  /** The resolved results that have a title, in result order. */
  function Listed(objs: seq<SearchObject>): seq<PageInfo> {
    if |objs| == 0 then []
    else
      var rest := Listed(objs[..|objs| - 1]);
      var info := Resolve(objs[|objs| - 1]);
      if info.title != "" then rest + [info] else rest
  }

  /** Searches for pages whose title contains `titleContain` and keeps those with a title. */
  method GetList(g: Gateway, titleContain: string) returns (r: Result<seq<PageInfo>, string>)
    ensures g.search(titleContain).Failure? ==> r == Failure(g.search(titleContain).error)
    ensures g.search(titleContain).Success? ==> r == Success(Listed(g.search(titleContain).value))
  {
    var res := g.search(titleContain);
    if res.Failure? {
      return Failure(res.error);
    }
    var results := res.value;
    var result: seq<PageInfo> := [];
    for i := 0 to |results|
      invariant result == Listed(results[..i])
    {
      var id, title := "", "";
      match results[i] {
        case PageObject(pageId, properties) =>
          id := pageId;
          if "title" in properties && properties["title"].TitleProperty? {
            var runs := properties["title"].runs;
            if |runs| > 0 {
              title := runs[0];
            }
          } else if "Name" in properties && properties["Name"].TitleProperty? {
            var runs := properties["Name"].runs;
            if |runs| > 0 {
              title := runs[0];
            }
          }
        case BlockObject(blockId) =>
          id := blockId;
        case DatabaseObject(databaseId) =>
          id := databaseId;
        case UnknownObject =>
      }
      assert results[..i + 1][..i] == results[..i];
      if title != "" {
        result := result + [PageInfo(id, title)];
      }
    }
    assert results[..|results|] == results;
    return Success(result);
  }

  /** Filtering two runs of results gives the two filtered runs one after the other. */
  lemma {:induction false} ListedAppend(a: seq<SearchObject>, b: seq<SearchObject>)
    ensures Listed(a + b) == Listed(a) + Listed(b)
    decreases |b|
  {
    if |b| == 0 {
      assert a + b == a;
    } else {
      assert (a + b)[..|a + b| - 1] == a + b[..|b| - 1];
      ListedAppend(a, b[..|b| - 1]);
    }
  }

  /**
   * An entry is listed exactly when it is the resolution of some page
   * result with a non-empty title; no block or database is ever listed.
   */
  lemma {:induction false} ListedMembership(objs: seq<SearchObject>, info: PageInfo)
    ensures info in Listed(objs) <==>
      info.title != "" && exists i :: 0 <= i < |objs| && objs[i].PageObject? && Resolve(objs[i]) == info
    decreases |objs|
  {
    if |objs| > 0 {
      var front := objs[..|objs| - 1];
      ListedMembership(front, info);
      if info.title != "" && Resolve(objs[|objs| - 1]) != info {
        if exists i :: 0 <= i < |objs| && objs[i].PageObject? && Resolve(objs[i]) == info {
          var i :| 0 <= i < |objs| && objs[i].PageObject? && Resolve(objs[i]) == info;
          assert front[i] == objs[i];
        }
      }
      if exists i :: 0 <= i < |front| && front[i].PageObject? && Resolve(front[i]) == info {
        var i :| 0 <= i < |front| && front[i].PageObject? && Resolve(front[i]) == info;
        assert objs[i] == front[i];
      }
    }
  }

  /** The same titled page returned twice is listed twice: nothing is de-duplicated. */
  lemma NoDeduplication(o: SearchObject)
    requires Resolve(o).title != ""
    ensures Listed([o, o]) == [Resolve(o), Resolve(o)]
  {
    assert [o, o][..1] == [o];
    assert Listed([o]) == [Resolve(o)] by {
      assert [o][..0] == [];
    }
  }

  /** A "title" property that is a title property wins even when empty: "Name" is then not read. */
  lemma TitlePropertyTakesPrecedence(properties: map<string, Property>)
    requires "title" in properties && properties["title"] == TitleProperty([])
    ensures PageTitle(properties) == ""
  {
  }

  /**
   * A page titled "Roadmap", a block and a database: only the page is listed,
   * because blocks and databases never get a title.
   */
  lemma SearchExample(pageId: string, blockId: string, databaseId: string)
    ensures Listed([PageObject(pageId, map["title" := TitleProperty(["Roadmap"])]),
                    BlockObject(blockId), DatabaseObject(databaseId)])
      == [PageInfo(pageId, "Roadmap")]
  {
    var page := PageObject(pageId, map["title" := TitleProperty(["Roadmap"])]);
    var objs := [page, BlockObject(blockId), DatabaseObject(databaseId)];
    assert Listed([page]) == [PageInfo(pageId, "Roadmap")] by {
      assert [page][..0] == [];
    }
    assert Listed(objs[..2]) == [PageInfo(pageId, "Roadmap")] by {
      assert objs[..2][..1] == [page];
    }
  }
}
