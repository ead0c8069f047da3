/** What compiling a subpatch with `get_fudi` produces, proved of the specification
    `ScopeEmit`/`MembersEmit`/`MemberEmit` that the compiler method `GetFudi` follows:
    which position counters move and by how much, where each object of a scope is placed,
    the order of the messages, that a canvas reads every message as a command, and that a
    second compile moves everything further down. */
module PatchProofs {
  import opened Outcomes
  import opened PatchMessages
  import opened Patch

  /** A header is emitted for every scope except the one called "main". */
  function HeaderCount(s: SubPatch): nat {
    if s.name == "main" then 0 else 1
  }

  /** The index where the connection messages of `s` start in `msgs`, the output of
      compiling `s`: before them the header and the members, after them the `vis` message. */
  function ConnectionsStart(s: SubPatch, conns: seq<Connection>, msgs: seq<Msg>): int {
    |msgs| - |conns| - (if s.visible then 0 else 1)
  }

  // ---------------------------------------------------------------- counters

  /** Compiling `s` moves no counter outside the subtree of `s`. */
  lemma {:induction false} ScopeKeepsOthers(root: SubPatch, v: View, s: SubPatch, ctr: map<SubPatch, int>, x: SubPatch)
    requires Shape(root, v) && s in v && (s.name == "main" || s.parent != null) && !Within(x, s)
    ensures Counter(ScopeEmit(root, v, s, ctr).ctr, x) == Counter(ctr, x)
    decreases |v| - s.depth, 2, 0
  {
    WithinSelf(s);
    var c1 := HeaderStep(s, ctr).0;
    assert Counter(c1, x) == Counter(ctr, x);
    MembersKeepOthers(root, v, s, 0, c1, x);
  }

  lemma {:induction false} MembersKeepOthers(root: SubPatch, v: View, s: SubPatch, i: int, ctr: map<SubPatch, int>, x: SubPatch)
    requires Shape(root, v) && s in v && 0 <= i <= |v[s].objects| && !Within(x, s)
    ensures Counter(MembersEmit(root, v, s, i, ctr).ctr, x) == Counter(ctr, x)
    decreases |v| - s.depth, 1, |v[s].objects| - i
  {
    if i < |v[s].objects| {
      var e := MemberEmit(root, v, s, i, ctr);
      MemberKeepsOthers(root, v, s, i, ctr, x);
      MembersKeepOthers(root, v, s, i + 1, e.ctr, x);
    }
  }

  lemma {:induction false} MemberKeepsOthers(root: SubPatch, v: View, s: SubPatch, i: int, ctr: map<SubPatch, int>, x: SubPatch)
    requires Shape(root, v) && s in v && 0 <= i < |v[s].objects| && !Within(x, s)
    ensures Counter(MemberEmit(root, v, s, i, ctr).ctr, x) == Counter(ctr, x)
    decreases |v| - s.depth, 0, 0
  {
    WithinSelf(s);
    var c1 := Gen(ctr, s).0;
    assert Counter(c1, x) == Counter(ctr, x);
    match v[s].objects[i]
    case Leaf(_) =>
    case Nested(c) =>
      ChildFacts(root, v, s, i);
      if Within(x, c) {
        WithinParent(x, c, s);
      }
      ScopeKeepsOthers(root, v, c, c1, x);
  }

  /** A scope is never inside one of its own members. */
  lemma NotWithinChild(root: SubPatch, v: View, s: SubPatch, i: int)
    requires Shape(root, v) && s in v && 0 <= i < |v[s].objects| && v[s].objects[i].Nested?
    ensures !Within(s, v[s].objects[i].sub)
  {
    ChildFacts(root, v, s, i);
  }

  /** Each member, object or subpatch, takes exactly one position of its scope. */
  lemma MemberAdvances(root: SubPatch, v: View, s: SubPatch, i: int, ctr: map<SubPatch, int>)
    requires Shape(root, v) && s in v && 0 <= i < |v[s].objects|
    ensures Counter(MemberEmit(root, v, s, i, ctr).ctr, s) == Counter(ctr, s) + Increment
  {
    if v[s].objects[i].Nested? {
      var c := v[s].objects[i].sub;
      ChildFacts(root, v, s, i);
      NotWithinChild(root, v, s, i);
      ScopeKeepsOthers(root, v, c, Gen(ctr, s).0, s);
    }
  }

  /** The members from the `i`-th on advance their scope's counter once each. */
  lemma {:induction false} MembersAdvance(root: SubPatch, v: View, s: SubPatch, i: int, ctr: map<SubPatch, int>)
    requires Shape(root, v) && s in v && 0 <= i <= |v[s].objects|
    ensures Counter(MembersEmit(root, v, s, i, ctr).ctr, s) == Counter(ctr, s) + Increment * (|v[s].objects| - i)
    decreases |v[s].objects| - i
  {
    if i < |v[s].objects| {
      var e := MemberEmit(root, v, s, i, ctr);
      MemberAdvances(root, v, s, i, ctr);
      MembersAdvance(root, v, s, i + 1, e.ctr);
    }
  }

  /** `get_fudi` advances the scope's own counter by one step per member, plus one for the
      header of a scope not called "main" (also when it then fails for want of a parent),
      and moves no counter outside the scope's subtree. */
  lemma CompileAdvances(root: SubPatch, v: View, s: SubPatch, ctr: map<SubPatch, int>)
    requires Shape(root, v) && s in v
    ensures var r := Compile(root, v, s, ctr);
      Counter(r.ctr, s) == Counter(ctr, s) +
        Increment * (if s.name != "main" && s.parent == null then 1 else HeaderCount(s) + |v[s].objects|)
    ensures var r := Compile(root, v, s, ctr);
      forall x | x in v && !Within(x, s) :: Counter(r.ctr, x) == Counter(ctr, x)
  {
    WithinSelf(s);
    if s.name == "main" || s.parent != null {
      MembersAdvance(root, v, s, 0, HeaderStep(s, ctr).0);
      forall x | x in v && !Within(x, s)
        ensures Counter(ScopeEmit(root, v, s, ctr).ctr, x) == Counter(ctr, x)
      {
        ScopeKeepsOthers(root, v, s, ctr, x);
      }
    }
  }

  // ---------------------------------------------------------------- positions

  /** No member from the `i`-th on positions an object of `s` with a smaller id. */
  lemma {:induction false} LaterMembersSkip(root: SubPatch, v: View, s: SubPatch, i: int, ctr: map<SubPatch, int>, o: Obj)
    requires Shape(root, v) && s in v && 0 <= i <= |v[s].objects| && o.parent == s && o.id < i
    ensures o !in MembersEmit(root, v, s, i, ctr).placed
    decreases |v[s].objects| - i
  {
    if i < |v[s].objects| {
      var e := MemberEmit(root, v, s, i, ctr);
      assert MembersValid(s, v[s].objects, v.Keys);
      if v[s].objects[i].Nested? {
        var c := v[s].objects[i].sub;
        ChildFacts(root, v, s, i);
        ScopePlacedUnder(root, v, c, Gen(ctr, s).0);
      }
      assert o !in e.placed;
      LaterMembersSkip(root, v, s, i + 1, e.ctr, o);
    }
  }

  /** The object that is the `k`-th member of `s` is placed one step below the position
      the `i`-th member takes, `k - i` steps later, and its creation message is emitted. */
  lemma {:induction false} MembersPlaceLeaf(root: SubPatch, v: View, s: SubPatch, i: int, ctr: map<SubPatch, int>, k: int)
    requires Shape(root, v) && s in v && 0 <= i <= k < |v[s].objects| && v[s].objects[k].Leaf?
    ensures var e := MembersEmit(root, v, s, i, ctr); var o := v[s].objects[k].obj;
      o in e.placed && e.placed[o] == Position(Column, Counter(ctr, s) + Increment * (k - i + 1)) &&
      Encode(Create(s.name, e.placed[o], o.name, o.args)) in e.msgs
    decreases k - i
  {
    var o := v[s].objects[k].obj;
    var e := MemberEmit(root, v, s, i, ctr);
    var rest := MembersEmit(root, v, s, i + 1, e.ctr);
    assert MembersValid(s, v[s].objects, v.Keys);
    if i == k {
      LaterMembersSkip(root, v, s, i + 1, e.ctr, o);
      assert e.msgs == [Encode(Create(s.name, Gen(ctr, s).1, o.name, o.args))];
    } else {
      MemberAdvances(root, v, s, i, ctr);
      MembersPlaceLeaf(root, v, s, i + 1, e.ctr, k);
    }
  }

  /** Compiling `s` from counters `ctr` places its `k`-th member, an object, at x 100 and
      y `Counter(ctr, s) + 25 * (k + 1)`, one step lower for a scope with a header, whatever
      position the object had; the object's creation message comes before the first
      connection message of `s`. */
  lemma ScopePlacesLeaf(root: SubPatch, v: View, s: SubPatch, ctr: map<SubPatch, int>, k: int)
    requires Shape(root, v) && s in v && (s.name == "main" || s.parent != null)
    requires 0 <= k < |v[s].objects| && v[s].objects[k].Leaf?
    ensures var e := ScopeEmit(root, v, s, ctr); var o := v[s].objects[k].obj;
      o in e.placed && e.placed[o] == Position(Column, Counter(ctr, s) + Increment * (HeaderCount(s) + k + 1)) &&
      Encode(Create(s.name, e.placed[o], o.name, o.args)) in e.msgs[..ConnectionsStart(s, v[s].connections, e.msgs)]
  {
    var (c1, header) := HeaderStep(s, ctr);
    var body := MembersEmit(root, v, s, 0, c1);
    MembersPlaceLeaf(root, v, s, 0, c1, k);
    var e := ScopeEmit(root, v, s, ctr);
    assert e.msgs[..ConnectionsStart(s, v[s].connections, e.msgs)] == header + body.msgs;
  }

  /** The `k`-th member of `s`, a scope `c` not called "main", is created in `s` by its
      header, at the position that follows `c`'s own counter as it was when the `i`-th
      member came up: no member before it moves that counter. */
  lemma {:induction false} MembersPlaceNested(root: SubPatch, v: View, s: SubPatch, i: int, ctr: map<SubPatch, int>, k: int)
    requires Shape(root, v) && s in v && 0 <= i <= k < |v[s].objects|
    requires v[s].objects[k].Nested? && v[s].objects[k].sub.name != "main"
    ensures var e := MembersEmit(root, v, s, i, ctr); var c := v[s].objects[k].sub;
      Encode(HeaderCommand(s.name, Position(Column, Counter(ctr, c) + Increment), c.name)) in e.msgs
    decreases k - i
  {
    var c := v[s].objects[k].sub;
    var e := MemberEmit(root, v, s, i, ctr);
    var rest := MembersEmit(root, v, s, i + 1, e.ctr);
    var header := Encode(HeaderCommand(s.name, Position(Column, Counter(ctr, c) + Increment), c.name));
    if i == k {
      MemberHeaderFirst(root, v, s, k, ctr);
    } else {
      MemberKeepsSibling(root, v, s, i, ctr, k);
      MembersPlaceNested(root, v, s, i + 1, e.ctr, k);
      assert header in rest.msgs;
    }
    assert MembersEmit(root, v, s, i, ctr).msgs == e.msgs + rest.msgs;
  }

  /** A member scope not called "main" starts its output with its header. */
  lemma MemberHeaderFirst(root: SubPatch, v: View, s: SubPatch, k: int, ctr: map<SubPatch, int>)
    requires Shape(root, v) && s in v && 0 <= k < |v[s].objects|
    requires v[s].objects[k].Nested? && v[s].objects[k].sub.name != "main"
    ensures var e := MemberEmit(root, v, s, k, ctr); var c := v[s].objects[k].sub;
      e.msgs != [] && e.msgs[0] == Encode(HeaderCommand(s.name, Position(Column, Counter(ctr, c) + Increment), c.name))
  {
    var c := v[s].objects[k].sub;
    ChildFacts(root, v, s, k);
    var c1 := Gen(ctr, s).0;
    assert Counter(c1, c) == Counter(ctr, c);
    var e := ScopeEmit(root, v, c, c1);
    assert MemberEmit(root, v, s, k, ctr) == e;
    ScopeHeaderFirst(root, v, c, c1);
    var pos := Position(Column, Counter(c1, c) + Increment);
    assert pos == Position(Column, Counter(ctr, c) + Increment);
    assert e.msgs[0] == Encode(HeaderCommand(s.name, pos, c.name));
  }

  /** The `i`-th member leaves the counter of another member scope, the `k`-th, alone. */
  lemma MemberKeepsSibling(root: SubPatch, v: View, s: SubPatch, i: int, ctr: map<SubPatch, int>, k: int)
    requires Shape(root, v) && s in v && 0 <= i < |v[s].objects| && 0 <= k < |v[s].objects| && i != k
    requires v[s].objects[k].Nested?
    ensures var c := v[s].objects[k].sub;
      Counter(MemberEmit(root, v, s, i, ctr).ctr, c) == Counter(ctr, c)
  {
    var c := v[s].objects[k].sub;
    ChildFacts(root, v, s, k);
    var c1 := Gen(ctr, s).0;
    assert Counter(c1, c) == Counter(ctr, c);
    if v[s].objects[i].Nested? {
      var d := v[s].objects[i].sub;
      ChildFacts(root, v, s, i);
      assert !Within(c, d);
      ScopeKeepsOthers(root, v, d, c1, c);
    }
  }

  /** Compiling `s` creates its `k`-th member, a scope not called "main", in `s` before the
      first connection message of `s`, at the position after that scope's own counter. */
  lemma ScopePlacesNested(root: SubPatch, v: View, s: SubPatch, ctr: map<SubPatch, int>, k: int)
    requires Shape(root, v) && s in v && (s.name == "main" || s.parent != null)
    requires 0 <= k < |v[s].objects| && v[s].objects[k].Nested? && v[s].objects[k].sub.name != "main"
    ensures var e := ScopeEmit(root, v, s, ctr); var c := v[s].objects[k].sub;
      Encode(HeaderCommand(s.name, Position(Column, Counter(ctr, c) + Increment), c.name))
        in e.msgs[..ConnectionsStart(s, v[s].connections, e.msgs)]
  {
    var c := v[s].objects[k].sub;
    ChildFacts(root, v, s, k);
    var (c1, header) := HeaderStep(s, ctr);
    assert Counter(c1, c) == Counter(ctr, c);
    var body := MembersEmit(root, v, s, 0, c1);
    MembersPlaceNested(root, v, s, 0, c1, k);
    var e := ScopeEmit(root, v, s, ctr);
    assert e.msgs[..ConnectionsStart(s, v[s].connections, e.msgs)] == header + body.msgs;
  }

  /** The message that creates object `o` at `pos` in its own scope. */
  function CreateMsg(o: Obj, pos: Position): Msg {
    Encode(Create(o.parent.name, pos, o.name, o.args))
  }

  /** Every object positioned in `placed` is created at that position by one of `msgs`. */
  ghost predicate CreatesPlaced(msgs: seq<Msg>, placed: map<Obj, Position>) {
    forall o | o in placed :: CreateMsg(o, placed[o]) in msgs
  }

  /** Every object that compiling `s` positions, at any depth, is created in its own scope
      at that position before the first connection message of `s`. */
  lemma {:induction false} ScopeCreatesPlaced(root: SubPatch, v: View, s: SubPatch, ctr: map<SubPatch, int>)
    requires Shape(root, v) && s in v && (s.name == "main" || s.parent != null)
    ensures var e := ScopeEmit(root, v, s, ctr);
      CreatesPlaced(e.msgs[..ConnectionsStart(s, v[s].connections, e.msgs)], e.placed)
    decreases |v| - s.depth, 2, 0
  {
    var (c1, header) := HeaderStep(s, ctr);
    var body := MembersEmit(root, v, s, 0, c1);
    MembersCreatePlaced(root, v, s, 0, c1);
    var e := ScopeEmit(root, v, s, ctr);
    var pre := e.msgs[..ConnectionsStart(s, v[s].connections, e.msgs)];
    assert pre == header + body.msgs && e.placed == body.placed;
    assert CreatesPlaced(body.msgs, body.placed);
    forall o | o in e.placed
      ensures CreateMsg(o, e.placed[o]) in pre
    {
      assert CreateMsg(o, body.placed[o]) in body.msgs;
    }
  }

  lemma {:induction false} MembersCreatePlaced(root: SubPatch, v: View, s: SubPatch, i: int, ctr: map<SubPatch, int>)
    requires Shape(root, v) && s in v && 0 <= i <= |v[s].objects|
    ensures var e := MembersEmit(root, v, s, i, ctr);
      CreatesPlaced(e.msgs, e.placed)
    decreases |v| - s.depth, 1, |v[s].objects| - i
  {
    if i < |v[s].objects| {
      var e := MemberEmit(root, v, s, i, ctr);
      var rest := MembersEmit(root, v, s, i + 1, e.ctr);
      MemberCreatesPlaced(root, v, s, i, ctr);
      MembersCreatePlaced(root, v, s, i + 1, e.ctr);
      var all := MembersEmit(root, v, s, i, ctr);
      assert all.msgs == e.msgs + rest.msgs && all.placed == e.placed + rest.placed;
      assert CreatesPlaced(e.msgs, e.placed) && CreatesPlaced(rest.msgs, rest.placed);
      forall o | o in all.placed
        ensures CreateMsg(o, all.placed[o]) in all.msgs
      {
        if o in rest.placed {
          assert CreateMsg(o, rest.placed[o]) in rest.msgs;
        } else {
          assert CreateMsg(o, e.placed[o]) in e.msgs;
        }
      }
    }
  }

  lemma {:induction false} MemberCreatesPlaced(root: SubPatch, v: View, s: SubPatch, i: int, ctr: map<SubPatch, int>)
    requires Shape(root, v) && s in v && 0 <= i < |v[s].objects|
    ensures var e := MemberEmit(root, v, s, i, ctr);
      CreatesPlaced(e.msgs, e.placed)
    decreases |v| - s.depth, 0, 0
  {
    var c1 := Gen(ctr, s).0;
    match v[s].objects[i]
    case Leaf(o) =>
      assert MembersValid(s, v[s].objects, v.Keys);
      assert o.parent == s;
    case Nested(c) =>
      ChildFacts(root, v, s, i);
      ScopeCreatesPlaced(root, v, c, c1);
      var e := ScopeEmit(root, v, c, c1);
      assert MemberEmit(root, v, s, i, ctr) == e;
      var pre := e.msgs[..ConnectionsStart(c, v[c].connections, e.msgs)];
      assert CreatesPlaced(pre, e.placed);
      forall o | o in e.placed
        ensures CreateMsg(o, e.placed[o]) in e.msgs
      {
        assert CreateMsg(o, e.placed[o]) in pre;
      }
  }

  // ---------------------------------------------------------------- message order

  /** The output of compiling a scope not called "main" starts with its header: the scope
      is created in its parent at the position after its own counter. */
  lemma ScopeHeaderFirst(root: SubPatch, v: View, s: SubPatch, ctr: map<SubPatch, int>)
    requires Shape(root, v) && s in v && s.name != "main" && s.parent != null
    ensures var e := ScopeEmit(root, v, s, ctr);
      e.msgs != [] &&
      e.msgs[0] == Encode(HeaderCommand(s.parent.name, Position(Column, Counter(ctr, s) + Increment), s.name))
  {
    var (c1, header) := HeaderStep(s, ctr);
    var rest := ScopeEmit(root, v, s, ctr).msgs[1..];
    assert ScopeEmit(root, v, s, ctr).msgs == header + rest;
  }

  /** The output of compiling `s` is the header and the members, then the connection
      messages, then the `vis` message of a scope that is not visible. */
  lemma ScopeSplit(root: SubPatch, v: View, s: SubPatch, ctr: map<SubPatch, int>) returns (pre: seq<Msg>)
    requires Shape(root, v) && s in v && (s.name == "main" || s.parent != null)
    ensures HeaderCount(s) <= |pre|
    ensures ScopeEmit(root, v, s, ctr).msgs ==
      pre + ConnectionsEmit(s.name, v[s].connections) + (if s.visible then [] else [Encode(Vis(s.name, 0))])
  {
    var (c1, header) := HeaderStep(s, ctr);
    pre := header + MembersEmit(root, v, s, 0, c1).msgs;
  }

  /** The layout of the output of compiling `s`: the `vis` message last (iff the scope is
      not visible), and just before it one message per connection of `s`, in insertion
      order, after the header and the members. */
  lemma ScopeLayout(root: SubPatch, v: View, s: SubPatch, ctr: map<SubPatch, int>)
    requires Shape(root, v) && s in v && (s.name == "main" || s.parent != null)
    ensures var e := ScopeEmit(root, v, s, ctr); var conns := v[s].connections;
      var start := ConnectionsStart(s, conns, e.msgs);
      HeaderCount(s) <= start &&
      (forall q | start <= q < start + |conns| :: e.msgs[q] == ConnectionMsg(s.name, conns[q - start])) &&
      (!s.visible ==> e.msgs[|e.msgs| - 1] == Encode(Vis(s.name, 0))) &&
      (s.visible ==> start + |conns| == |e.msgs|)
  {
    var pre := ScopeSplit(root, v, s, ctr);
    TailLayout(pre, s, v[s].connections, ScopeEmit(root, v, s, ctr).msgs);
  }

  /** Where the connection messages and the `vis` message sit in `pre` followed by them. */
  lemma TailLayout(pre: seq<Msg>, s: SubPatch, conns: seq<Connection>, msgs: seq<Msg>)
    requires msgs == pre + ConnectionsEmit(s.name, conns) + (if s.visible then [] else [Encode(Vis(s.name, 0))])
    ensures ConnectionsStart(s, conns, msgs) == |pre|
    ensures forall q | |pre| <= q < |pre| + |conns| :: msgs[q] == ConnectionMsg(s.name, conns[q - |pre|])
    ensures !s.visible ==> msgs[|msgs| - 1] == Encode(Vis(s.name, 0))
    ensures s.visible ==> |pre| + |conns| == |msgs|
  {
    var links := ConnectionsEmit(s.name, conns);
    forall q | |pre| <= q < |pre| + |links|
      ensures msgs[q] == links[q - |pre|]
    {
    }
  }

  // ---------------------------------------------------------------- every message is a command

  /** Messages a canvas reads as commands. */
  ghost predicate Commands(msgs: seq<Msg>) {
    forall j | 0 <= j < |msgs| :: Parse(msgs[j]).Some?
  }

  lemma CommandsJoin(a: seq<Msg>, b: seq<Msg>)
    requires Commands(a) && Commands(b)
    ensures Commands(a + b)
  {
    forall j | 0 <= j < |a + b|
      ensures Parse((a + b)[j]).Some?
    {
      if j >= |a| {
        assert (a + b)[j] == b[j - |a|];
      }
    }
  }

  lemma EncodedCommand(c: Command)
    ensures Commands([Encode(c)])
  {
    ParseEncode(c);
  }

  /** Every message that compiling a scope emits is one of the four canvas commands. */
  lemma {:induction false} ScopeCommands(root: SubPatch, v: View, s: SubPatch, ctr: map<SubPatch, int>)
    requires Shape(root, v) && s in v && (s.name == "main" || s.parent != null)
    ensures Commands(ScopeEmit(root, v, s, ctr).msgs)
    decreases |v| - s.depth, 2, 0
  {
    var (c1, header) := HeaderStep(s, ctr);
    if s.name != "main" {
      EncodedCommand(HeaderCommand(s.parent.name, Gen(ctr, s).1, s.name));
    }
    MembersCommands(root, v, s, 0, c1);
    var links := ConnectionsEmit(s.name, v[s].connections);
    forall j | 0 <= j < |links|
      ensures Parse(links[j]).Some?
    {
      var c := v[s].connections[j];
      ParseEncode(Connect(s.name, c.source.Id(), c.outlet, c.sink.Id(), c.inlet));
    }
    var vis: seq<Msg> := if s.visible then [] else [Encode(Vis(s.name, 0))];
    EncodedCommand(Vis(s.name, 0));
    CommandsJoin(header, MembersEmit(root, v, s, 0, c1).msgs);
    CommandsJoin(header + MembersEmit(root, v, s, 0, c1).msgs, links);
    CommandsJoin(header + MembersEmit(root, v, s, 0, c1).msgs + links, vis);
  }

  lemma {:induction false} MembersCommands(root: SubPatch, v: View, s: SubPatch, i: int, ctr: map<SubPatch, int>)
    requires Shape(root, v) && s in v && 0 <= i <= |v[s].objects|
    ensures Commands(MembersEmit(root, v, s, i, ctr).msgs)
    decreases |v| - s.depth, 1, |v[s].objects| - i
  {
    if i < |v[s].objects| {
      var e := MemberEmit(root, v, s, i, ctr);
      MemberCommands(root, v, s, i, ctr);
      MembersCommands(root, v, s, i + 1, e.ctr);
      CommandsJoin(e.msgs, MembersEmit(root, v, s, i + 1, e.ctr).msgs);
    }
  }

  lemma {:induction false} MemberCommands(root: SubPatch, v: View, s: SubPatch, i: int, ctr: map<SubPatch, int>)
    requires Shape(root, v) && s in v && 0 <= i < |v[s].objects|
    ensures Commands(MemberEmit(root, v, s, i, ctr).msgs)
    decreases |v| - s.depth, 0, 0
  {
    var (c1, pos) := Gen(ctr, s);
    match v[s].objects[i]
    case Leaf(o) =>
      EncodedCommand(Create(s.name, pos, o.name, o.args));
    case Nested(c) =>
      ChildFacts(root, v, s, i);
      ScopeCommands(root, v, c, c1);
  }

  // ---------------------------------------------------------------- compiling twice

  /** `get_fudi` is not idempotent: compiling a scope again, from the counters the first
      compile left, places each of its objects `25 * (members + header)` lower, and a scope
      with a header gets its header lower by the same amount. */
  lemma CompileTwice(root: SubPatch, v: View, s: SubPatch, ctr: map<SubPatch, int>, k: int)
    requires Shape(root, v) && s in v && (s.name == "main" || s.parent != null)
    requires 0 <= k < |v[s].objects| && v[s].objects[k].Leaf?
    ensures var first := Compile(root, v, s, ctr); var second := Compile(root, v, s, first.ctr);
      var o := v[s].objects[k].obj; var shift := Increment * (HeaderCount(s) + |v[s].objects|);
      first.result.Ok? && second.result.Ok? && o in first.placed && o in second.placed &&
      second.placed[o] == Position(Column, first.placed[o].y + shift) &&
      (s.name != "main" ==> second.result.value[0] != first.result.value[0])
  {
    var first := Compile(root, v, s, ctr);
    CompileAdvances(root, v, s, ctr);
    ScopePlacesLeaf(root, v, s, ctr, k);
    ScopePlacesLeaf(root, v, s, first.ctr, k);
    if s.name != "main" {
      ScopeHeaderFirst(root, v, s, ctr);
      ScopeHeaderFirst(root, v, s, first.ctr);
      var m1 := HeaderCommand(s.parent.name, Position(Column, Counter(ctr, s) + Increment), s.name);
      var m2 := HeaderCommand(s.parent.name, Position(Column, Counter(first.ctr, s) + Increment), s.name);
      if Encode(m1) == Encode(m2) {
        EncodeInjective(m1, m2);
      }
    }
  }

  // ---------------------------------------------------------------- connections in a tree

  /** In a valid tree, the ids a connection message carries are the indexes at which its two
      ends sit in the scope's member list, so they name objects created earlier in the same
      compile. */
  lemma ConnectionIds(root: SubPatch, x: SubPatch, k: int)
    requires TreeValid(root) && x in root.scopes && 0 <= k < |x.connections|
    ensures var c := x.connections[k];
      0 <= c.source.Id() < |x.objects| && x.objects[c.source.Id()] == c.source &&
      0 <= c.sink.Id() < |x.objects| && x.objects[c.sink.Id()] == c.sink
  {
    var c := x.connections[k];
    assert Wired(x.objects, x.connections) && MembersValid(x, x.objects, root.scopes);
    var a :| 0 <= a < |x.objects| && x.objects[a] == c.source;
    var b :| 0 <= b < |x.objects| && x.objects[b] == c.sink;
  }
}
