/**
 The hard link table (api/src/path.rs): links by name, and a reference count per target.  Whether a
 path exists, and whether the file system removes a file, are parameters.
 */
module Hardlinks {
  import opened Common

  /** `removed` lists the files removed because their count reached zero, oldest first. */
  datatype Links = Links(links: map<string, string>, counts: map<string, nat>, removed: seq<string>)

  ghost function Pointing(links: map<string, string>, dst: string): set<string> {
    set src | src in links && links[src] == dst
  }

  /** A target has a count exactly when some link points to it, and the count is the number of those. */
  ghost predicate Consistent(l: Links) {
    && (forall d :: d in l.counts <==> Pointing(l.links, d) != {})
    && (forall d :: d in l.counts ==> l.counts[d] == |Pointing(l.links, d)|)
  }

  const EMPTY: Links := Links(map[], map[], [])

  lemma AddPointing(links: map<string, string>, src: string, dst: string)
    requires src !in links
    ensures Pointing(links[src := dst], dst) == Pointing(links, dst) + {src}
    ensures forall d :: d != dst ==> Pointing(links[src := dst], d) == Pointing(links, d)
  {
  }

  lemma RemovePointing(links: map<string, string>, src: string)
    requires src in links
    ensures Pointing(links - {src}, links[src]) == Pointing(links, links[src]) - {src}
    ensures |Pointing(links - {src}, links[src])| == |Pointing(links, links[src])| - 1
    ensures forall d :: d != links[src] ==> Pointing(links - {src}, d) == Pointing(links, d)
  {
    assert src in Pointing(links, links[src]);
  }

  /** The link `src` is the only one to its target. */
  ghost predicate OnlyLink(links: map<string, string>, src: string) {
    src in links && Pointing(links, links[src]) == {src}
  }

  /** What a decrement does to the counts; a count that reaches zero goes away. */
  function Decrease(counts: map<string, nat>, d: string): map<string, nat>
    requires d in counts && counts[d] > 0
  {
    if counts[d] == 1 then counts - {d} else counts[d := counts[d] - 1]
  }

  /** Removing a link that exists: the count goes down and the last link takes the file with it. */
  function Unlink(l: Links, src: string): (r: Links)
    requires Consistent(l) && src in l.links
    ensures l.links[src] in l.counts && l.counts[l.links[src]] > 0
    ensures Consistent(r) && r.links == l.links - {src}
    ensures r.removed == l.removed + (if OnlyLink(l.links, src) then [l.links[src]] else [])
  {
    RemovePointing(l.links, src);
    assert src in Pointing(l.links, l.links[src]);
    var d := l.links[src];
    assert l.counts[d] == 1 <==> OnlyLink(l.links, src) by { OneMeansOnly(l, src); }
    var r := Links(l.links - {src}, Decrease(l.counts, d), l.removed + if l.counts[d] == 1 then [d] else []);
    UnlinkConsistent(l, src, r);
    r
  }

  lemma OneMeansOnly(l: Links, src: string)
    requires Consistent(l) && src in l.links
    ensures l.links[src] in l.counts && (l.counts[l.links[src]] == 1 <==> OnlyLink(l.links, src))
  {
    var all := Pointing(l.links, l.links[src]);
    assert src in all;
    if |all| == 1 {
      assert |all - {src}| == 0;
      assert all - {src} == {};
    }
  }

  lemma UnlinkConsistent(l: Links, src: string, r: Links)
    requires Consistent(l) && src in l.links && l.links[src] in l.counts && l.counts[l.links[src]] > 0
    requires r.links == l.links - {src} && r.counts == Decrease(l.counts, l.links[src])
    ensures Consistent(r)
  {
    RemovePointing(l.links, src);
    var d := l.links[src];
    assert |Pointing(r.links, d)| == l.counts[d] - 1;
    assert Pointing(r.links, d) != {} <==> l.counts[d] > 1;
  }

  /** A new link to `dst`. */
  function Link(l: Links, src: string, dst: string): (r: Links)
    requires Consistent(l) && src !in l.links
    ensures Consistent(r) && r.links == l.links[src := dst] && r.removed == l.removed
  {
    AddPointing(l.links, src, dst);
    var n := if dst in l.counts then l.counts[dst] else 0;
    l.(links := l.links[src := dst], counts := l.counts[dst := n + 1])
  }

  /** `atomic_link_update`: a new link, a link to a new target, or nothing. */
  function LinkUpdate(l: Links, src: string, dst: string): (r: Links)
    requires Consistent(l)
    ensures Consistent(r) && r.links == l.links[src := dst]
    ensures r.removed == l.removed + (if OnlyLink(l.links, src) && l.links[src] != dst then [l.links[src]] else [])
  {
    if src !in l.links then Link(l, src, dst)
    else if l.links[src] == dst then
      assert l.links[src := dst] == l.links;
      l
    else Retarget(l, src, dst)
  }

  /** An existing link gets another target; the old target loses a link. */
  function Retarget(l: Links, src: string, dst: string): (r: Links)
    requires Consistent(l) && src in l.links && l.links[src] != dst
    ensures Consistent(r) && r.links == l.links[src := dst]
    ensures r.removed == l.removed + (if OnlyLink(l.links, src) then [l.links[src]] else [])
  {
    var mid := Unlink(l, src);
    assert mid.links[src := dst] == l.links[src := dst];
    Link(mid, src, dst)
  }

  /** `atomic_link_remove` */
  function LinkRemove(l: Links, src: string): (r: Links)
    requires Consistent(l)
    ensures Consistent(r) && r.links == l.links - {src}
    ensures r.removed == l.removed + (if OnlyLink(l.links, src) then [l.links[src]] else [])
  {
    if src in l.links then Unlink(l, src) else
      assert l.links - {src} == l.links;
      l
  }

  // ------------------------------------------------------------- every run

  /** One call that reaches the table: `create_link` past its checks, or `remove_link`. */
  datatype Op = Create(src: string, dst: string) | Remove(src: string)

  function Apply(l: Links, op: Op): (r: Links)
    requires Consistent(l)
    ensures Consistent(r)
  {
    match op
    case Create(src, dst) => LinkUpdate(l, src, dst)
    case Remove(src) => LinkRemove(l, src)
  }

  function Run(l: Links, ops: seq<Op>): (r: Links)
    requires Consistent(l)
    ensures Consistent(r)
    decreases |ops|
  {
    if ops == [] then l else Run(Apply(l, ops[0]), ops[1..])
  }

  /**
   A step removes a file exactly when some link pointed to it before and none does after, and it
   removes at most one.
   */
  lemma RemovedExactlyWithLastLink(l: Links, op: Op, d: string)
    requires Consistent(l)
    ensures var r := Apply(l, op);
            && |l.removed| <= |r.removed| <= |l.removed| + 1 && r.removed[..|l.removed|] == l.removed
            && (r.removed == l.removed + [d] <==> Pointing(l.links, d) != {} && Pointing(r.links, d) == {})
  {
    var r := Apply(l, op);
    if op.src in l.links {
      RemovePointing(l.links, op.src);
      assert op.src in Pointing(l.links, l.links[op.src]);
      if op.Create? {
        AddPointing(l.links - {op.src}, op.src, op.dst);
        assert r.links == (l.links - {op.src})[op.src := op.dst];
      }
    } else if op.Create? {
      AddPointing(l.links, op.src, op.dst);
    }
  }

  /** After any sequence of calls a target has a count exactly when a link points to it, and it is their number. */
  lemma {:induction false} CountsAfterAnyRun(ops: seq<Op>, d: string)
    ensures Consistent(EMPTY)
    ensures var l := Run(EMPTY, ops);
            && (d in l.counts <==> exists src :: src in l.links && l.links[src] == d)
            && (d in l.counts ==> l.counts[d] == |Pointing(l.links, d)| && l.counts[d] > 0)
  {
    var l := Run(EMPTY, ops);
    assert d in l.counts <==> Pointing(l.links, d) != {};
    if d in l.counts {
      var src :| src in Pointing(l.links, d);
    }
    if src :| src in l.links && l.links[src] == d {
      assert src in Pointing(l.links, d);
    }
  }

  /**
   The target's own name is not counted.  Linking to a file and unlinking the link again removes the
   file exactly when no other link pointed to it.
   */
  lemma LinkThenUnlink(l: Links, src: string, dst: string)
    requires Consistent(l) && src !in l.links
    ensures var r := LinkRemove(LinkUpdate(l, src, dst), src);
            && r.links == l.links && r.counts == l.counts
            && r.removed == l.removed + (if Pointing(l.links, dst) == {} then [dst] else [])
  {
    AddPointing(l.links, src, dst);
    var mid := LinkUpdate(l, src, dst);
    assert src !in Pointing(l.links, dst);
    assert Pointing(mid.links, dst) == {src} <==> Pointing(l.links, dst) == {};
    assert (l.links[src := dst]) - {src} == l.links;
    CountsDetermined(l, LinkRemove(mid, src));
  }

  lemma CountsDetermined(l: Links, r: Links)
    requires Consistent(l) && Consistent(r) && l.links == r.links
    ensures l.counts == r.counts
  {
    assert forall d :: d in l.counts <==> Pointing(l.links, d) != {};
    assert forall d :: d in r.counts <==> Pointing(r.links, d) != {};
  }

  // ------------------------------------------------------------- the table

  /** `FilePath::is_dir` looks at the text of the path alone. */
  predicate IsDir(path: string) {
    path != [] && path[|path| - 1] == '/'
  }

  lemma DirPaths(path: string, c: char)
    ensures IsDir(path + "/") && !IsDir("") && (c != '/' ==> !IsDir(path + [c]))
  {
  }

  datatype LinkError = NotFound | NotFile

  datatype Result = Ok | Err(error: LinkError)

  class HardlinkManager {
    var links: map<string, string>
    var refCounts: map<string, nat>
    ghost var removed: seq<string>

    ghost function View(): Links
      reads this
    {
      Links(links, refCounts, removed)
    }

    ghost predicate Valid()
      reads this
    {
      Consistent(View())
    }

    constructor ()
      ensures Valid() && View() == EMPTY
    {
      links, refCounts, removed := map[], map[], [];
    }

    /** `decrease_ref_count`; the result is false on the branch "link exists but ref count is zero". */
    method DecreaseRefCount(path: string) returns (found: bool)
      requires path in refCounts ==> refCounts[path] > 0
      modifies this`refCounts, this`removed
      ensures found <==> path in old(refCounts)
      ensures found ==> refCounts == Decrease(old(refCounts), path)
                        && removed == old(removed) + (if old(refCounts)[path] == 1 then [path] else [])
      ensures !found ==> refCounts == old(refCounts) && removed == old(removed)
    {
      if path !in refCounts {
        return false;
      }
      refCounts := refCounts[path := refCounts[path] - 1];
      if refCounts[path] == 0 {
        refCounts := refCounts - {path};
        removed := removed + [path];
      }
      found := true;
    }

    method AtomicLinkUpdate(src: string, dst: string)
      requires Valid()
      modifies this
      ensures Valid() && View() == LinkUpdate(old(View()), src, dst)
    {
      ghost var l := View();
      if src in links {
        var oldDst := links[src];
        if oldDst == dst {
          return;
        }
        ghost var mid := Unlink(l, src);
        var found := DecreaseRefCount(oldDst);
        assert found;
      }
      assert links[src := dst] == (links - {src})[src := dst];
      links := links[src := dst];
      refCounts := refCounts[dst := (if dst in refCounts then refCounts[dst] else 0) + 1];
      assert View() == LinkUpdate(l, src, dst);
    }

    method AtomicLinkRemove(src: string) returns (dst: Option<string>)
      requires Valid()
      modifies this
      ensures Valid() && View() == LinkRemove(old(View()), src)
      ensures dst == if src in old(links) then Some(old(links)[src]) else None
    {
      if src !in links {
        return None;
      }
      ghost var after := Unlink(View(), src);
      var target := links[src];
      links := links - {src};
      var found := DecreaseRefCount(target);
      assert found;
      dst := Some(target);
    }

    /** `create_link`, with the paths that exist: the test refuses every path that does not end in a slash. */
    method CreateLink(src: string, dst: string, paths: set<string>) returns (r: Result)
      requires Valid()
      modifies this
      ensures Valid()
      ensures r == if dst !in paths then Err(NotFound) else if !IsDir(dst) then Err(NotFile) else Ok
      ensures View() == if r.Ok? then LinkUpdate(old(View()), src, dst) else old(View())
    {
      if dst !in paths {
        return Err(NotFound);
      }
      if !IsDir(dst) {
        return Err(NotFile);
      }
      AtomicLinkUpdate(src, dst);
      r := Ok;
    }

    /** `remove_link`: a name that is not a link is removed from the file system itself. */
    method RemoveLink(src: string, removeFileOk: bool) returns (r: Option<string>)
      requires Valid()
      modifies this
      ensures Valid() && View() == LinkRemove(old(View()), src)
      ensures r == if src in old(links) then Some(old(links)[src]) else if removeFileOk then Some(src) else None
    {
      r := AtomicLinkRemove(src);
      if r.None? && removeFileOk {
        r := Some(src);
      }
    }

    /** `link_count`: the number of links, or the file itself when there are none. */
    function LinkCount(path: string, paths: set<string>): (n: nat)
      requires Valid()
      reads this
      ensures n == if Pointing(links, path) != {} then |Pointing(links, path)| else if path in paths then 1 else 0
    {
      if path in refCounts then refCounts[path] else if path in paths then 1 else 0
    }
  }
}
