/**
 * The page assembler: one walk per requested page, all or nothing.
 */
module Pages {
  import opened Wrappers
  import opened Notion
  import opened Walker

  predicate AllPagesWalkable(g: Gateway, infos: seq<PageInfo>, depth: nat) {
    forall i :: 0 <= i < |infos| ==> Walkable(g, infos[i].id, depth)
  }

  /** One page: its walk wrapped as a page record, or the walk's error tagged with the page id. */
  function PageContent(g: Gateway, info: PageInfo, depth: nat): Result<Page, string>
    requires Walkable(g, info.id, depth)
  {
    match Walk(g, info.id, depth)
    case Failure(e) => Failure("get Page " + info.id + " error: " + e)
    case Success(s) => Success(Page(info.id, info.title, s))
  }

  method GetPageContent(g: Gateway, info: PageInfo, ghost depth: nat) returns (r: Result<Page, string>)
    requires Walkable(g, info.id, depth)
    ensures r == PageContent(g, info, depth)
  {
    var buf := GetBlock(g, info.id, depth);
    if buf.Failure? {
      return Failure("get Page " + info.id + " error: " + buf.error);
    }
    return Success(Page(info.id, info.title, buf.value));
  }

  /** The position of the first page whose walk fails, or `|infos|` when none does. */
  function FirstFailingPage(g: Gateway, infos: seq<PageInfo>, depth: nat): (k: nat)
    requires AllPagesWalkable(g, infos, depth)
    ensures k <= |infos|
    ensures forall j :: 0 <= j < k ==> Walk(g, infos[j].id, depth).Success?
    ensures k < |infos| ==> Walk(g, infos[k].id, depth).Failure?
  {
    if |infos| == 0 then 0
    else if Walk(g, infos[0].id, depth).Failure? then 0
    else 1 + FirstFailingPage(g, infos[1..], depth)
  }

  /**
   * The batch: every page in request order when all walks succeed;
   * otherwise only the first failing page's error, tagged twice with its id.
   */
  function PagesContent(g: Gateway, infos: seq<PageInfo>, depth: nat): Result<seq<Page>, string>
    requires AllPagesWalkable(g, infos, depth)
  {
    var k := FirstFailingPage(g, infos, depth);
    if k < |infos| then
      Failure("get Pages " + infos[k].id + " error: " + PageContent(g, infos[k], depth).error)
    else
      Success(seq(|infos|, i requires 0 <= i < |infos| =>
        Page(infos[i].id, infos[i].title, Walk(g, infos[i].id, depth).value)))
  }

  /** Assembles the pages one by one, stopping at the first page that fails. */
  method GetPagesContent(g: Gateway, infos: seq<PageInfo>, ghost depth: nat)
    returns (r: Result<seq<Page>, string>)
    requires AllPagesWalkable(g, infos, depth)
    ensures r == PagesContent(g, infos, depth)
  {
    var result: seq<Page> := [];
    for i := 0 to |infos|
      invariant |result| == i
      invariant forall j :: 0 <= j < i ==> Walk(g, infos[j].id, depth).Success?
      invariant forall j :: 0 <= j < i ==>
        result[j] == Page(infos[j].id, infos[j].title, Walk(g, infos[j].id, depth).value)
    {
      var res := GetPageContent(g, infos[i], depth);
      if res.Failure? {
        assert FirstFailingPage(g, infos, depth) == i;
        return Failure("get Pages " + infos[i].id + " error: " + res.error);
      }
      result := result + [res.value];
    }
    assert FirstFailingPage(g, infos, depth) == |infos|;
    assert PagesContent(g, infos, depth).value == result;
    return Success(result);
  }

  /**
   * All or nothing: the batch succeeds exactly when every page's walk
   * succeeds, and then holds one record per request, in order, each with the
   * request's id and title and that id's walk as content. Otherwise the error
   * names the first page that failed.
   */
  lemma PagesAllOrNothing(g: Gateway, infos: seq<PageInfo>, depth: nat)
    requires AllPagesWalkable(g, infos, depth)
    ensures PagesContent(g, infos, depth).Success? <==>
      forall i :: 0 <= i < |infos| ==> PageContent(g, infos[i], depth).Success?
    ensures PagesContent(g, infos, depth).Success? ==>
      var ps := PagesContent(g, infos, depth).value;
      |ps| == |infos| &&
      forall i :: 0 <= i < |infos| ==>
        ps[i].id == infos[i].id && ps[i].title == infos[i].title &&
        Walk(g, infos[i].id, depth) == Success(ps[i].content)
    ensures PagesContent(g, infos, depth).Failure? ==>
      exists k :: 0 <= k < |infos| && PageContent(g, infos[k], depth).Failure? &&
        (forall j :: 0 <= j < k ==> PageContent(g, infos[j], depth).Success?) &&
        PagesContent(g, infos, depth).error ==
          "get Pages " + infos[k].id + " error: " + PageContent(g, infos[k], depth).error
  {
    var k := FirstFailingPage(g, infos, depth);
    if k < |infos| {
      assert PageContent(g, infos[k], depth).Failure?;
    }
  }
}
