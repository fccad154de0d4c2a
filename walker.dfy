/**
 * The tree walker: the Markdown of a block and its whole subtree, fetched
 * through the gateway. Failing to fetch the block or to list its children
 * is an error; a child subtree that fails contributes nothing.
 */
module Walker {
  import opened Wrappers
  import opened Notion
  import opened Render

  /**
   * The walk from `id` reaches no deeper than `depth` levels, and every
   * childless table on the way had its rows listed (the renderer reads them).
   */
  predicate Walkable(g: Gateway, id: string, depth: nat)
    decreases depth
  {
    depth > 0 &&
    match g.getBlock(id)
    case Failure(_) => true
    case Success(b) =>
      if b.kind.Unsupported? then true
      else if !b.hasChildren then Renderable(g, b)
      else
        g.getChildren(id).Success? ==>
          var cs := g.getChildren(id).value;
          forall i :: 0 <= i < |cs| ==> Walkable(g, cs[i].id, depth - 1)
  }

  predicate AllWalkable(g: Gateway, cs: seq<Block>, depth: nat) {
    forall i :: 0 <= i < |cs| ==> Walkable(g, cs[i].id, depth)
  }

  /** What a walk adds to its parent's output: its text, or nothing when it failed. */
  function Contribution(r: Result<string, string>): string {
    if r.Success? then r.value else ""
  }

  /** The Markdown of the block `id` and its subtree, or the error that stopped it. */
  function Walk(g: Gateway, id: string, depth: nat): Result<string, string>
    requires Walkable(g, id, depth)
    decreases depth, 0
  {
    match g.getBlock(id)
    case Failure(e) => Failure("get block " + id + " error: " + e)
    case Success(b) =>
      if b.kind.Unsupported? then Success("")
      else if !b.hasChildren then Success(Fragment(g, b))
      else
        match g.getChildren(id)
        case Failure(e) => Failure("get block's children " + id + " error: " + e)
        case Success(cs) => Success(WalkAll(g, cs, depth - 1))
  }

  /** The children's contributions, in listing order. */
  function WalkAll(g: Gateway, cs: seq<Block>, depth: nat): string
    requires AllWalkable(g, cs, depth)
    decreases depth, 1, |cs|
  {
    if |cs| == 0 then ""
    else Contribution(Walk(g, cs[0].id, depth)) + WalkAll(g, cs[1..], depth)
  }

  /** Walks the block `id`: fetch it, render it or walk its children one by one. */
  method GetBlock(g: Gateway, id: string, ghost depth: nat) returns (r: Result<string, string>)
    requires Walkable(g, id, depth)
    ensures r == Walk(g, id, depth)
    decreases depth
  {
    var fetched := g.getBlock(id);
    if fetched.Failure? {
      return Failure("get block " + id + " error: " + fetched.error);
    }
    var b := fetched.value;
    if b.kind.Unsupported? {
      return Success("");
    }
    if !b.hasChildren {
      var fragment := BlockToMarkdown(g, b);
      return Success(fragment);
    }
    var listing := g.getChildren(id);
    if listing.Failure? {
      return Failure("get block's children " + id + " error: " + listing.error);
    }
    var children := listing.value;
    var result := "";
    for i := 0 to |children|
      invariant result == WalkAll(g, children[..i], depth - 1)
    {
      var buf := GetBlock(g, children[i].id, depth - 1);
      // A failed child hands back an empty buffer, which is appended all the same.
      var bytes := if buf.Success? then buf.value else "";
      WalkAllAppend(g, children[..i], [children[i]], depth - 1);
      assert children[..i + 1] == children[..i] + [children[i]];
      result := result + bytes;
    }
    assert children[..|children|] == children;
    return Success(result);
  }

  /** Walking two runs of siblings gives the two outputs one after the other. */
  lemma {:induction false} WalkAllAppend(g: Gateway, a: seq<Block>, b: seq<Block>, depth: nat)
    requires AllWalkable(g, a, depth) && AllWalkable(g, b, depth)
    ensures AllWalkable(g, a + b, depth)
    ensures WalkAll(g, a + b, depth) == WalkAll(g, a, depth) + WalkAll(g, b, depth)
    decreases |a|
  {
    if |a| == 0 {
      assert a + b == b;
    } else {
      assert (a + b)[1..] == a[1..] + b;
      WalkAllAppend(g, a[1..], b, depth);
    }
  }

  /**
   * The error policy: a walk fails exactly when the block itself cannot be
   * fetched, or when it is a supported block with children whose listing
   * fails; failures below the listed children never reach it.
   */
  lemma WalkFailsOnlyAtItsOwnFetches(g: Gateway, id: string, depth: nat)
    requires Walkable(g, id, depth)
    ensures Walk(g, id, depth).Failure? <==>
      g.getBlock(id).Failure? ||
      (var b := g.getBlock(id).value;
       !b.kind.Unsupported? && b.hasChildren && g.getChildren(id).Failure?)
    ensures g.getBlock(id).Failure? ==>
      Walk(g, id, depth) == Failure("get block " + id + " error: " + g.getBlock(id).error)
  {
  }

  /** A child whose walk fails drops out; its siblings' output is kept intact and in order. */
  lemma FailedChildContributesNothing(g: Gateway, cs: seq<Block>, i: nat, depth: nat)
    requires AllWalkable(g, cs, depth) && i < |cs|
    requires Walk(g, cs[i].id, depth).Failure?
    ensures WalkAll(g, cs, depth) == WalkAll(g, cs[..i], depth) + WalkAll(g, cs[i + 1..], depth)
  {
    WalkAllAppend(g, cs[..i], cs[i..], depth);
    assert cs[..i] + cs[i..] == cs;
    assert cs[i..][1..] == cs[i + 1..];
  }

  // ---------------------------------------------------------------------
  // The output is the leaves' fragments in document order
  // ---------------------------------------------------------------------

  /**
   * The blocks that emit a fragment, depth first in listing order: every
   * reachable supported block without children. Blocks with children,
   * unsupported blocks and whatever hangs below a failed fetch are absent.
   */
  function Leaves(g: Gateway, id: string, depth: nat): (r: seq<Block>)
    requires Walkable(g, id, depth)
    ensures forall i :: 0 <= i < |r| ==>
      Renderable(g, r[i]) && !r[i].hasChildren && !r[i].kind.Unsupported?
    decreases depth, 0
  {
    match g.getBlock(id)
    case Failure(_) => []
    case Success(b) =>
      if b.kind.Unsupported? then []
      else if !b.hasChildren then [b]
      else
        match g.getChildren(id)
        case Failure(_) => []
        case Success(cs) => LeavesAll(g, cs, depth - 1)
  }

  function LeavesAll(g: Gateway, cs: seq<Block>, depth: nat): (r: seq<Block>)
    requires AllWalkable(g, cs, depth)
    ensures forall i :: 0 <= i < |r| ==>
      Renderable(g, r[i]) && !r[i].hasChildren && !r[i].kind.Unsupported?
    decreases depth, 1, |cs|
  {
    if |cs| == 0 then [] else Leaves(g, cs[0].id, depth) + LeavesAll(g, cs[1..], depth)
  }

  predicate AllRenderable(g: Gateway, bs: seq<Block>) {
    forall i :: 0 <= i < |bs| ==> Renderable(g, bs[i])
  }

  /** The fragments of `bs`, one after the other. */
  function Fragments(g: Gateway, bs: seq<Block>): string
    requires AllRenderable(g, bs)
  {
    if |bs| == 0 then "" else Fragment(g, bs[0]) + Fragments(g, bs[1..])
  }

  lemma {:induction false} FragmentsAppend(g: Gateway, a: seq<Block>, b: seq<Block>)
    requires AllRenderable(g, a) && AllRenderable(g, b)
    ensures AllRenderable(g, a + b)
    ensures Fragments(g, a + b) == Fragments(g, a) + Fragments(g, b)
    decreases |a|
  {
    if |a| == 0 {
      assert a + b == b;
    } else {
      assert (a + b)[1..] == a[1..] + b;
      FragmentsAppend(g, a[1..], b);
    }
  }

  /**
   * What a walk contributes is exactly the fragments of its leaves in
   * depth-first listing order: no parent adds text of its own, and a
   * failed walk contributes nothing.
   */
  lemma {:induction false} WalkIsLeafFragments(g: Gateway, id: string, depth: nat)
    requires Walkable(g, id, depth)
    ensures Contribution(Walk(g, id, depth)) == Fragments(g, Leaves(g, id, depth))
    decreases depth, 0
  {
    match g.getBlock(id)
    case Failure(_) =>
    case Success(b) =>
      if b.kind.Unsupported? {
      } else if !b.hasChildren {
        assert Fragments(g, [b]) == Fragment(g, b) + Fragments(g, []);
      } else {
        match g.getChildren(id)
        case Failure(_) =>
        case Success(cs) => WalkAllIsLeafFragments(g, cs, depth - 1);
      }
  }

  lemma {:induction false} WalkAllIsLeafFragments(g: Gateway, cs: seq<Block>, depth: nat)
    requires AllWalkable(g, cs, depth)
    ensures WalkAll(g, cs, depth) == Fragments(g, LeavesAll(g, cs, depth))
    decreases depth, 1, |cs|
  {
    if |cs| > 0 {
      WalkIsLeafFragments(g, cs[0].id, depth);
      WalkAllIsLeafFragments(g, cs[1..], depth);
      FragmentsAppend(g, Leaves(g, cs[0].id, depth), LeavesAll(g, cs[1..], depth));
    }
  }

  // ---------------------------------------------------------------------
  // The depth bound only guarantees termination
  // ---------------------------------------------------------------------

  /** Any larger bound admits the same walk and gives the same result. */
  lemma {:induction false} WalkDepthIrrelevant(g: Gateway, id: string, d: nat, e: nat)
    requires Walkable(g, id, d) && d <= e
    ensures Walkable(g, id, e)
    ensures Walk(g, id, d) == Walk(g, id, e)
    decreases d, 0
  {
    match g.getBlock(id)
    case Failure(_) =>
    case Success(b) =>
      if !b.kind.Unsupported? && b.hasChildren && g.getChildren(id).Success? {
        WalkAllDepthIrrelevant(g, g.getChildren(id).value, d - 1, e - 1);
      }
  }

  lemma {:induction false} WalkAllDepthIrrelevant(g: Gateway, cs: seq<Block>, d: nat, e: nat)
    requires AllWalkable(g, cs, d) && d <= e
    ensures AllWalkable(g, cs, e)
    ensures WalkAll(g, cs, d) == WalkAll(g, cs, e)
    decreases d, 1, |cs|
  {
    if |cs| > 0 {
      WalkDepthIrrelevant(g, cs[0].id, d, e);
      WalkAllDepthIrrelevant(g, cs[1..], d, e);
    }
    forall i | 0 <= i < |cs|
      ensures Walkable(g, cs[i].id, e)
    {
      WalkDepthIrrelevant(g, cs[i].id, d, e);
    }
  }
}
