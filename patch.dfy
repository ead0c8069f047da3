/** The patch-graph builder and compiler of purity/obj.py.

    A SubPatch owns an ordered list of members (objects and nested subpatches) and an
    ordered list of connections between its members. `get_fudi` compiles a subpatch,
    depth first and pre-order, into the atom lists that create it in Pure Data, advancing
    a per-scope position counter and overwriting each object's position on the way.

    Every subpatch keeps, as ghost state, its depth below the root of its tree and a
    reference to that root; the root keeps the set of every scope ever created in its tree.
    These make the tree shape an invariant (`TreeValid`) and give the recursive compiler a
    termination measure. The compiler method is proved against the ghost functions
    `ScopeEmit`/`MembersEmit`, which work on a `View`: the member and connection lists of
    every scope of the tree, as a value. Object positions, which the compiler writes, are
    not part of it. */
module Patch {
  import opened Outcomes
  import opened PatchMessages

  /** The exceptions the builder and compiler can raise. */
  datatype Raised = NameError(message: string) | AttributeError(message: string)

  /** `connect` raises `PureError`, a name obj.py never defines: Python raises NameError when
      it evaluates that name, before the message is built. */
  const UndefinedPureError := NameError("global name 'PureError' is not defined")

  /** Compiling a root scope that is not called "main" reads the name of its missing parent. */
  const NoParent := AttributeError("'NoneType' object has no attribute 'name'")

  // ---------------------------------------------------------------- positions

  /** The distance between two objects of a subpatch, and their common x coordinate. */
  const Increment := 25
  const Column := 100

  /** A scope's entry of `_gen_pos_indexes` (absent, then set to 0, on first use). */
  function Counter(ctr: map<SubPatch, int>, s: SubPatch): int {
    if s in ctr then ctr[s] else 0
  }

  /** `_gen_position(parent)` without randomness: the new counters and the position. */
  function Gen(ctr: map<SubPatch, int>, s: SubPatch): (r: (map<SubPatch, int>, Position))
    ensures Counter(r.0, s) == Counter(ctr, s) + Increment
    ensures r.1 == Position(Column, Counter(r.0, s))
    ensures r.0.Keys == ctr.Keys + {s} && forall x | x in ctr && x != s :: r.0[x] == ctr[x]
  {
    var next := ctr[s := Counter(ctr, s) + Increment];
    (next, Position(Column, next[s]))
  }

  /** The global table of position counters, keyed by scope. */
  class PositionIndexes {
    var indexes: map<SubPatch, int>

    constructor ()
      ensures indexes == map[]
    {
      indexes := map[];
    }

    method GenPosition(parent: SubPatch) returns (pos: Position)
      modifies this
      ensures (indexes, pos) == Gen(old(indexes), parent)
    {
      var current := if parent in indexes then indexes[parent] else 0;
      indexes := indexes[parent := current + Increment];
      pos := Position(Column, current + Increment);
    }
  }

  // ---------------------------------------------------------------- elements

  /** A Pure Data object (`Obj`), or a [receive] object (`Receive`) when it has a receive
      symbol. Its id and parent are fixed when the owning subpatch creates it. */
  class Obj {
    const name: string
    const args: seq<Atom>
    const receiveSymbol: Option<string>
    const id: int
    const parent: SubPatch
    var pos: Position

    /** `Obj(name, *args, pos=...)` as created by `SubPatch.obj`: the position is [0, 0]
        unless one is given. */
    constructor Create(name: string, args: seq<Atom>, pos: Option<Position>, id: int, parent: SubPatch)
      ensures this.name == name && this.args == args && receiveSymbol == None
      ensures this.id == id && this.parent == parent
      ensures this.pos == (if pos.Some? then pos.value else Position(0, 0))
    {
      this.name := name;
      this.args := args;
      receiveSymbol := None;
      this.id := id;
      this.parent := parent;
      this.pos := if pos.Some? then pos.value else Position(0, 0);
    }

    /** `Receive(symbol)`: the object "r" with the symbol as its only argument. */
    constructor Receive(symbol: string, id: int, parent: SubPatch)
      ensures name == "r" && args == [Str(symbol)] && receiveSymbol == Some(symbol)
      ensures this.id == id && this.parent == parent && pos == Position(0, 0)
    {
      name := "r";
      args := [Str(symbol)];
      receiveSymbol := Some(symbol);
      this.id := id;
      this.parent := parent;
      pos := Position(0, 0);
    }

    /** `get_fudi`: "obj", the position, the name, then the arguments. */
    function Fudi(): (m: Msg)
      reads this
      ensures |m| == 4 + |args| && m[4..] == args
      ensures m[0] == Str("obj") && m[1] == Num(pos.x) && m[2] == Num(pos.y) && m[3] == Str(name)
    {
      ObjectAtoms(pos, name, args)
    }

    /** `Receive.send(*args)`: the message that reaches this [receive] object. */
    function Send(more: seq<Atom>): (m: Msg)
      requires receiveSymbol.Some?
      ensures |m| == 1 + |more| && m[0] == Str(receiveSymbol.value) && m[1..] == more
    {
      SendAtoms(receiveSymbol.value, more)
    }
  }

  /** An entry of a subpatch's object list. */
  datatype Member = Leaf(obj: Obj) | Nested(sub: SubPatch) {
    function Id(): int {
      if Leaf? then obj.id else sub.id
    }

    function Parent(): SubPatch? {
      if Leaf? then obj.parent else sub.parent
    }
  }

  /** A connection from an outlet of one member to an inlet of another. */
  datatype Connection = Connection(source: Member, outlet: int, sink: Member, inlet: int) {
    /** `Connection.get_fudi`: "connect", then the source id, outlet, sink id and inlet. */
    function Fudi(): (m: Msg)
      ensures |m| == 5 && m[0] == Str("connect")
      ensures m[1] == Num(source.Id()) && m[2] == Num(outlet) && m[3] == Num(sink.Id()) && m[4] == Num(inlet)
    {
      ConnectAtoms(source.Id(), outlet, sink.Id(), inlet)
    }
  }

  /** A Pure Data subpatch. */
  class SubPatch {
    const name: string
    const visible: bool
    const parent: SubPatch?
    const id: int
    ghost const depth: nat
    ghost const top: SubPatch?
    var objects: seq<Member>
    var connections: seq<Connection>
    /** At the root: every scope created in this tree, including the root. */
    ghost var scopes: set<SubPatch>

    /** The root of this scope's tree. */
    ghost function Root(): SubPatch {
      if top == null then this else top
    }

    ghost predicate Valid()
      reads Root(), Root().scopes
    {
      this in Root().scopes && TreeValid(Root())
    }

    /** `SubPatch(name, visible)`: a scope with no parent, the root of its own tree. A root
        is never a member of another scope, so its id is never read. */
    constructor (name: string := "main", visible: bool := false)
      ensures Valid() && Root() == this && scopes == {this}
      ensures this.name == name && this.visible == visible && parent == null
      ensures objects == [] && connections == []
    {
      this.name := name;
      this.visible := visible;
      parent := null;
      id := 0;
      depth := 0;
      top := null;
      objects := [];
      connections := [];
      new;
      scopes := {this};
    }

    /** The subpatch that `subpatch(name, visible)` creates inside `parent`. */
    constructor Child(name: string, visible: bool, parent: SubPatch, id: int)
      ensures this.name == name && this.visible == visible && this.parent == parent && this.id == id
      ensures depth == parent.depth + 1 && top == parent.Root() && Root() == parent.Root()
      ensures objects == [] && connections == [] && scopes == {}
    {
      this.name := name;
      this.visible := visible;
      this.parent := parent;
      this.id := id;
      depth := parent.depth + 1;
      top := parent.Root();
      objects := [];
      connections := [];
      scopes := {};
    }

    /** `obj(name, *args, pos=...)`: appends a new object whose id is the number of members
        before it. */
    method Obj(name: string, args: seq<Atom>, pos: Option<Position>) returns (o: Obj)
      requires Valid()
      modifies this`objects
      ensures Valid()
      ensures fresh(o) && o.name == name && o.args == args && o.receiveSymbol == None
      ensures o.id == old(|objects|) && o.parent == this
      ensures o.pos == (if pos.Some? then pos.value else Position(0, 0))
      ensures objects == old(objects) + [Leaf(o)]
    {
      o := new Obj.Create(name, args, pos, |objects|, this);
      AddObject(Leaf(o));
    }

    /** `receive(symbol)`: appends a new [receive] object. */
    method Receive(symbol: string) returns (o: Obj)
      requires Valid()
      modifies this`objects
      ensures Valid()
      ensures fresh(o) && o.name == "r" && o.args == [Str(symbol)] && o.receiveSymbol == Some(symbol)
      ensures o.id == old(|objects|) && o.parent == this && o.pos == Position(0, 0)
      ensures objects == old(objects) + [Leaf(o)]
    {
      o := new Obj.Receive(symbol, |objects|, this);
      AddObject(Leaf(o));
    }

    /** `_add_object`, for a member the factories have just created for this scope with
        the next id and this scope as parent; a nested scope is already part of the tree. */
    method AddObject(m: Member)
      requires Valid() && (m.Nested? ==> m.sub in Root().scopes)
      requires m.Id() == |objects| && m.Parent() == this
      modifies this`objects
      ensures Valid()
      ensures objects == old(objects) + [m]
    {
      MembersGrow(this, objects, m, Root().scopes);
      WiredGrows(objects, m, connections);
      objects := objects + [m];
    }

    /** `subpatch(name, visible)`: appends a new nested subpatch. */
    method Subpatch(name: string, visible: bool := false) returns (c: SubPatch)
      requires Valid()
      modifies this`objects, Root()`scopes
      ensures Valid() && Root().scopes == old(Root().scopes) + {c}
      ensures fresh(c) && c.Valid() && c.Root() == Root()
      ensures c.name == name && c.visible == visible && c.parent == this && c.id == old(|objects|)
      ensures c.objects == [] && c.connections == []
      ensures objects == old(objects) + [Nested(c)]
    {
      ghost var root := Root();
      ghost var scopes := root.scopes;
      c := new SubPatch.Child(name, visible, this, |objects|);
      LinkedAdd(root, scopes, c);
      forall x | x in scopes
        ensures MembersValid(x, x.objects, scopes + {c})
      {
        MembersWider(x, x.objects, scopes, scopes + {c});
      }
      root.scopes := scopes + {c};
      AddObject(Nested(c));
    }

    /** `connect`: appends the connection when both ends are members of this scope;
        otherwise raises (a NameError, `PureError` being undefined) and changes nothing. */
    method Connect(source: Member, outlet: int, sink: Member, inlet: int) returns (r: Outcome<Raised>)
      requires Valid()
      modifies this`connections
      ensures Valid()
      ensures r.Pass? <==> source in objects && sink in objects
      ensures r.Pass? ==> connections == old(connections) + [Connection(source, outlet, sink, inlet)]
      ensures r.Fail? ==> connections == old(connections) && r.error == UndefinedPureError
    {
      if source !in objects {
        r := Fail(UndefinedPureError);
      } else if sink !in objects {
        r := Fail(UndefinedPureError);
      } else {
        var link := Connection(source, outlet, sink, inlet);
        assert Wired(objects, connections + [link]);
        connections := connections + [link];
        r := Pass;
      }
    }

    /** `clear`: empties the scope and returns the message that clears it in Pd. Scopes
        that were members stay in the tree, detached. */
    method Clear() returns (m: Msg)
      requires Valid()
      modifies this`objects, this`connections
      ensures Valid() && objects == [] && connections == []
      ensures m == Encode(Command.Clear(name))
    {
      connections := [];
      objects := [];
      m := [Addressee(name), Str("clear")];
    }

    /** `get_fudi`: compiles this scope as `Compile` says of the current tree, leaving the
        counters and every object position where `Compile` leaves them. */
    method GetFudi(table: PositionIndexes) returns (r: Result<seq<Msg>, Raised>)
      requires Valid()
      modifies table, Leaves(ViewOf(Root()), this)
      ensures var e := Compile(Root(), ViewOf(Root()), this, old(table.indexes));
        r == e.result && table.indexes == e.ctr && forall o | o in e.placed :: o.pos == e.placed[o]
      ensures var e := Compile(Root(), ViewOf(Root()), this, old(table.indexes));
        forall o | o in Leaves(ViewOf(Root()), this) && o !in e.placed :: o.pos == old(o.pos)
    {
      ShapeOfTree(Root());
      r := CompileIn(table, Root(), ViewOf(Root()));
    }

    /** `get_fudi` on a scope of the tree whose lists `v` holds. */
    method CompileIn(table: PositionIndexes, ghost root: SubPatch, ghost v: View)
        returns (r: Result<seq<Msg>, Raised>)
      requires Shape(root, v) && this in v && Agrees(v)
      modifies table, Leaves(v, this)
      ensures var e := Compile(root, v, this, old(table.indexes));
        r == e.result && table.indexes == e.ctr && forall o | o in e.placed :: o.pos == e.placed[o]
      ensures var e := Compile(root, v, this, old(table.indexes));
        forall o | o in Leaves(v, this) && o !in e.placed :: o.pos == old(o.pos)
      decreases |v| - depth, 2
    {
      ghost var c0 := table.indexes;
      var header: seq<Msg> := [];
      if name != "main" {
        var pos := table.GenPosition(this);
        if parent == null {
          return Err(NoParent);
        }
        header := [[Addressee(parent.name)] + ObjectAtoms(pos, "pd", [Str(name)])];
        assert header == [Encode(HeaderCommand(parent.name, pos, name))];
      }
      assert (table.indexes, header) == HeaderStep(this, c0);
      var links := EmitConnections();
      var body := EmitMembers(table, root, v);
      var vis: seq<Msg> := [];
      if !visible {
        vis := [[Addressee(name), Str("vis"), Num(0)]];
      }
      r := Ok(header + body + links + vis);
    }

    /** The objects loop of `get_fudi`: every member in order, each taking the next
        position of this scope. */
    method EmitMembers(table: PositionIndexes, ghost root: SubPatch, ghost v: View) returns (body: seq<Msg>)
      requires Shape(root, v) && this in v && Agrees(v)
      modifies table, Leaves(v, this)
      ensures var e := MembersEmit(root, v, this, 0, old(table.indexes));
        body == e.msgs && table.indexes == e.ctr && forall o | o in e.placed :: o.pos == e.placed[o]
      ensures var e := MembersEmit(root, v, this, 0, old(table.indexes));
        forall o | o in Leaves(v, this) && o !in e.placed :: o.pos == old(o.pos)
      decreases |v| - depth, 1
    {
      ghost var placed: map<Obj, Position> := map[];
      ghost var target := MembersEmit(root, v, this, 0, table.indexes);
      JoinNothing(target);
      body := [];
      var i := 0;
      while i < |objects|
        invariant 0 <= i <= |objects| == |v[this].objects|
        invariant Join(body, placed, MembersEmit(root, v, this, i, table.indexes)) == target
        invariant forall o | o in placed :: o.pos == placed[o] && PlacedBefore(o, this, i)
        invariant forall o | o in Leaves(v, this) && o !in placed :: o.pos == old(o.pos)
      {
        ghost var e := MemberEmit(root, v, this, i, table.indexes);
        MemberStep(root, v, this, i, table.indexes, placed);
        var msgs := EmitMember(table, i, root, v, placed);
        JoinAssoc(body, placed, msgs, e.placed, MembersEmit(root, v, this, i + 1, table.indexes));
        body := body + msgs;
        placed := placed + e.placed;
        i := i + 1;
      }
    }

    /** One pass of the objects loop: the `i`-th member takes the next position of this
        scope; an object is given it, a nested subpatch is compiled in place. The objects
        `placed` by the earlier passes keep their positions. */
    method EmitMember(table: PositionIndexes, i: int, ghost root: SubPatch, ghost v: View,
                      ghost placed: map<Obj, Position>)
        returns (msgs: seq<Msg>)
      requires Shape(root, v) && this in v && Agrees(v) && 0 <= i < |v[this].objects|
      requires forall o | o in placed :: o.pos == placed[o] && o !in MemberLeaves(v, this, i)
      modifies table, MemberLeaves(v, this, i)
      ensures var e := MemberEmit(root, v, this, i, old(table.indexes));
        msgs == e.msgs && table.indexes == e.ctr
      ensures var e := MemberEmit(root, v, this, i, old(table.indexes)); var now := placed + e.placed;
        forall o | o in now :: o.pos == now[o]
      ensures var e := MemberEmit(root, v, this, i, old(table.indexes));
        forall o | o in Leaves(v, this) && o !in placed + e.placed :: o.pos == old(o.pos)
      decreases |v| - depth, 0
    {
      var pos := table.GenPosition(this);
      var member := objects[i];
      if member.Leaf? {
        var o := member.obj;
        o.pos := pos;
        msgs := [[Addressee(name)] + o.Fudi()];
      } else {
        var c := member.sub;
        ChildFacts(root, v, this, i);
        var r := c.CompileIn(table, root, v);
        msgs := r.value;
      }
    }

    /** The connections loop of `get_fudi`. The messages depend only on the connections,
        which compiling the members does not touch. */
    method EmitConnections() returns (links: seq<Msg>)
      ensures links == ConnectionsEmit(name, connections)
    {
      links := [];
      var k := 0;
      while k < |connections|
        invariant 0 <= k <= |connections|
        invariant links == ConnectionsEmit(name, connections[..k])
      {
        links := links + [[Addressee(name)] + connections[k].Fudi()];
        k := k + 1;
      }
      assert connections[..k] == connections;
    }
  }

  /** `get_main_patch()`: the [pd main] scope. */
  method MainPatch() returns (p: SubPatch)
    ensures fresh(p) && p.Valid() && p.Root() == p
    ensures p.name == "main" && !p.visible && p.parent == null && p.objects == [] && p.connections == []
  {
    p := new SubPatch();
  }

  // ---------------------------------------------------------------- the tree invariant

  /** The member and connection lists of one scope. */
  datatype ScopeState = ScopeState(objects: seq<Member>, connections: seq<Connection>)

  /** The lists of every scope of a tree. */
  type View = map<SubPatch, ScopeState>

  ghost function ViewOf(root: SubPatch): (v: View)
    reads root, root.scopes
    ensures v.Keys == root.scopes
    ensures forall x | x in root.scopes :: v[x] == ScopeState(x.objects, x.connections)
  {
    map x | x in root.scopes :: ScopeState(x.objects, x.connections)
  }

  /** The members of scope `x` carry their indexes as ids and `x` as parent; the nested
      scopes among them belong to `scopes`. */
  ghost predicate MembersValid(x: SubPatch, objects: seq<Member>, scopes: set<SubPatch>) {
    forall i | 0 <= i < |objects| ::
      objects[i].Id() == i && objects[i].Parent() == x && (objects[i].Nested? ==> objects[i].sub in scopes)
  }

  /** Every connection joins two members. */
  ghost predicate Wired(objects: seq<Member>, connections: seq<Connection>) {
    forall k | 0 <= k < |connections| :: connections[k].source in objects && connections[k].sink in objects
  }

  /** The links of a tree of scopes: the root has no parent, every other scope has a parent
      one level up, and depths stay below the number of scopes. */
  ghost predicate Linked(root: SubPatch, scopes: set<SubPatch>) {
    root in scopes && root.parent == null && root.depth == 0 && root.top == null &&
    forall x | x in scopes ::
      x.depth < |scopes| &&
      (x != root ==> x.parent != null && x.depth == x.parent.depth + 1 && x.top == root)
  }

  /** A view of a well-formed tree. */
  ghost predicate Shape(root: SubPatch, v: View) {
    Linked(root, v.Keys) && forall x | x in v :: MembersValid(x, v[x].objects, v.Keys)
  }

  /** The lists in `v` are those of the heap. */
  ghost predicate Agrees(v: View)
    reads v.Keys
  {
    forall x | x in v :: v[x] == ScopeState(x.objects, x.connections)
  }

  ghost predicate TreeValid(root: SubPatch)
    reads root, root.scopes
  {
    Linked(root, root.scopes) &&
    forall x | x in root.scopes :: MembersValid(x, x.objects, root.scopes) && Wired(x.objects, x.connections)
  }

  lemma ShapeOfTree(root: SubPatch)
    requires TreeValid(root)
    ensures Shape(root, ViewOf(root)) && Agrees(ViewOf(root))
  {
  }

  /** A new scope one level below a scope of the tree keeps it linked. */
  lemma LinkedAdd(root: SubPatch, scopes: set<SubPatch>, c: SubPatch)
    requires Linked(root, scopes) && c !in scopes
    requires c.parent != null && c.parent in scopes && c.depth == c.parent.depth + 1 && c.top == root
    ensures Linked(root, scopes + {c})
  {
    assert |scopes + {c}| == |scopes| + 1;
  }

  lemma MembersWider(x: SubPatch, objects: seq<Member>, scopes: set<SubPatch>, more: set<SubPatch>)
    requires MembersValid(x, objects, scopes) && scopes <= more
    ensures MembersValid(x, objects, more)
  {
  }

  /** Appending a member with the next id and this parent keeps the members valid. */
  lemma MembersGrow(x: SubPatch, objects: seq<Member>, m: Member, scopes: set<SubPatch>)
    requires MembersValid(x, objects, scopes)
    requires m.Id() == |objects| && m.Parent() == x && (m.Nested? ==> m.sub in scopes)
    ensures MembersValid(x, objects + [m], scopes)
  {
  }

  lemma WiredGrows(objects: seq<Member>, m: Member, connections: seq<Connection>)
    requires Wired(objects, connections)
    ensures Wired(objects + [m], connections)
  {
  }

  /** The ancestor `k` levels up (or the topmost one when the chain is shorter). */
  ghost function Anc(x: SubPatch, k: nat): SubPatch
    decreases k
  {
    if k == 0 || x.parent == null then x else Anc(x.parent, k - 1)
  }

  /** `x` is `s` or lies below it. */
  ghost predicate Within(x: SubPatch, s: SubPatch) {
    x.depth >= s.depth && Anc(x, x.depth - s.depth) == s
  }

  /** The objects directly in `s` or in a scope below it. */
  ghost function Leaves(v: View, s: SubPatch): set<Obj> {
    set x, i | x in v && 0 <= i < |v[x].objects| && v[x].objects[i].Leaf? && Within(x, s) :: v[x].objects[i].obj
  }

  /** An object that belongs to `s` itself or to the subtree of one of its first `i` members. */
  ghost predicate PlacedBefore(o: Obj, s: SubPatch, i: int) {
    (o.parent == s && o.id < i) || (o.parent.depth > s.depth && Anc(o.parent, o.parent.depth - s.depth - 1).id < i)
  }

  lemma {:induction false} AncCompose(x: SubPatch, a: nat, b: nat)
    ensures Anc(x, a + b) == Anc(Anc(x, a), b)
    decreases a
  {
    if a > 0 && x.parent != null {
      AncCompose(x.parent, a - 1, b);
    }
  }

  lemma WithinSelf(s: SubPatch)
    ensures Within(s, s)
  {
  }

  lemma WithinParent(x: SubPatch, c: SubPatch, s: SubPatch)
    requires Within(x, c) && c.parent == s && c.depth == s.depth + 1
    ensures Within(x, s)
  {
    AncCompose(x, x.depth - c.depth, 1);
  }

  /** What the shape says about the `i`-th member of `s` when it is a scope. */
  lemma ChildFacts(root: SubPatch, v: View, s: SubPatch, i: int)
    requires Shape(root, v) && s in v && 0 <= i < |v[s].objects| && v[s].objects[i].Nested?
    ensures var c := v[s].objects[i].sub;
      c in v && c.parent == s && c.id == i && c.depth == s.depth + 1 && c.top == root &&
      c.Root() == root && c.depth < |v|
  {
    assert MembersValid(s, v[s].objects, v.Keys);
    var c := v[s].objects[i].sub;
    assert c.parent == s;
    assert c != root;
  }

  lemma LeavesUnderChild(v: View, s: SubPatch, c: SubPatch)
    requires c.parent == s && c.depth == s.depth + 1
    ensures Leaves(v, c) <= Leaves(v, s)
  {
    forall x | x in v && Within(x, c)
      ensures Within(x, s)
    {
      WithinParent(x, c, s);
    }
  }

  /** The objects under `s` belong to scopes under `s`. */
  lemma LeafParentWithin(root: SubPatch, v: View, s: SubPatch, o: Obj)
    requires Shape(root, v) && o in Leaves(v, s)
    ensures Within(o.parent, s)
  {
    var x, j :| x in v && 0 <= j < |v[x].objects| && v[x].objects[j].Leaf? && Within(x, s) &&
      v[x].objects[j].obj == o;
    assert MembersValid(x, v[x].objects, v.Keys);
    assert v[x].objects[j].Parent() == x;
  }

  /** An object placed before the `i`-th member, the scope `c`, is not below `c`. */
  lemma NotUnderLaterChild(root: SubPatch, v: View, s: SubPatch, c: SubPatch, o: Obj, i: int)
    requires Shape(root, v)
    requires c.parent == s && c.id == i && c.depth == s.depth + 1
    requires PlacedBefore(o, s, i)
    ensures o !in Leaves(v, c)
  {
    if o in Leaves(v, c) {
      LeafParentWithin(root, v, c, o);
    }
  }

  // ---------------------------------------------------------------- the compile specification

  /** What compiling part of a scope produces: the messages in order, the counters
      afterwards, and the position given to each object. */
  datatype Emitted = Emitted(msgs: seq<Msg>, ctr: map<SubPatch, int>, placed: map<Obj, Position>)

  /** Messages produced before `e`, followed by `e`. */
  function Join(msgs: seq<Msg>, placed: map<Obj, Position>, e: Emitted): Emitted {
    Emitted(msgs + e.msgs, e.ctr, placed + e.placed)
  }

  function ConnectionMsg(scope: string, c: Connection): Msg {
    Encode(Connect(scope, c.source.Id(), c.outlet, c.sink.Id(), c.inlet))
  }

  /** One message per connection, in insertion order. */
  function ConnectionsEmit(scope: string, conns: seq<Connection>): (r: seq<Msg>)
    ensures |r| == |conns| && forall k | 0 <= k < |conns| :: r[k] == ConnectionMsg(scope, conns[k])
  {
    seq(|conns|, k requires 0 <= k < |conns| => ConnectionMsg(scope, conns[k]))
  }

  /** The header step of `get_fudi`: a scope not called "main" takes a position from its
      own counter and is created as a [pd name] object in its parent. */
  function HeaderStep(s: SubPatch, ctr: map<SubPatch, int>): (r: (map<SubPatch, int>, seq<Msg>))
    requires s.name == "main" || s.parent != null
    ensures |r.1| == (if s.name == "main" then 0 else 1)
    ensures s.name == "main" ==> r.0 == ctr
    ensures s.name != "main" ==>
      r.0 == Gen(ctr, s).0 && Counter(r.0, s) == Counter(ctr, s) + Increment &&
      r.1[0] == Encode(HeaderCommand(s.parent.name, Position(Column, Counter(r.0, s)), s.name))
  {
    if s.name == "main" then (ctr, [])
    else
      var (next, pos) := Gen(ctr, s);
      (next, [Encode(HeaderCommand(s.parent.name, pos, s.name))])
  }

  /** The messages, counters and positions of compiling scope `s` from counters `ctr`. */
  ghost function ScopeEmit(root: SubPatch, v: View, s: SubPatch, ctr: map<SubPatch, int>): Emitted
    requires Shape(root, v) && s in v && (s.name == "main" || s.parent != null)
    decreases |v| - s.depth, 2, 0
  {
    var (c1, header) := HeaderStep(s, ctr);
    var body := MembersEmit(root, v, s, 0, c1);
    Emitted(header + body.msgs + ConnectionsEmit(s.name, v[s].connections) +
            (if s.visible then [] else [Encode(Vis(s.name, 0))]),
            body.ctr, body.placed)
  }

  /** The members of `s` from the `i`-th on, in order. */
  ghost function MembersEmit(root: SubPatch, v: View, s: SubPatch, i: int, ctr: map<SubPatch, int>): Emitted
    requires Shape(root, v) && s in v && 0 <= i <= |v[s].objects|
    decreases |v| - s.depth, 1, |v[s].objects| - i
  {
    if i == |v[s].objects| then Emitted([], ctr, map[])
    else
      var e := MemberEmit(root, v, s, i, ctr);
      Join(e.msgs, e.placed, MembersEmit(root, v, s, i + 1, e.ctr))
  }

  /** The `i`-th member of `s` takes the next position of `s`: an object is created there,
      a nested scope is compiled. */
  ghost function MemberEmit(root: SubPatch, v: View, s: SubPatch, i: int, ctr: map<SubPatch, int>): Emitted
    requires Shape(root, v) && s in v && 0 <= i < |v[s].objects|
    decreases |v| - s.depth, 0, 0
  {
    var (c1, pos) := Gen(ctr, s);
    match v[s].objects[i]
    case Leaf(o) => Emitted([Encode(Create(s.name, pos, o.name, o.args))], c1, map[o := pos])
    case Nested(c) =>
      ChildFacts(root, v, s, i);
      ScopeEmit(root, v, c, c1)
  }

  /** The objects that compiling the `i`-th member of `s` positions. */
  ghost function MemberLeaves(v: View, s: SubPatch, i: int): set<Obj>
    requires s in v && 0 <= i < |v[s].objects|
  {
    match v[s].objects[i]
    case Leaf(o) => {o}
    case Nested(c) => Leaves(v, c)
  }

  /** The result of `get_fudi` on `s`, the counters afterwards and the positions given. */
  datatype Compiled = Compiled(result: Result<seq<Msg>, Raised>, ctr: map<SubPatch, int>, placed: map<Obj, Position>)

  ghost function Compile(root: SubPatch, v: View, s: SubPatch, ctr: map<SubPatch, int>): (r: Compiled)
    requires Shape(root, v) && s in v
    ensures r.result.Err? <==> s.name != "main" && s.parent == null
    ensures r.result.Err? ==>
      r.result.error == NoParent && r.ctr == Gen(ctr, s).0 && r.placed == map[]
  {
    if s.name != "main" && s.parent == null then Compiled(Err(NoParent), Gen(ctr, s).0, map[])
    else
      var e := ScopeEmit(root, v, s, ctr);
      Compiled(Ok(e.msgs), e.ctr, e.placed)
  }

  lemma JoinAssoc(body: seq<Msg>, placed: map<Obj, Position>, msgs: seq<Msg>, more: map<Obj, Position>, rest: Emitted)
    ensures Join(body + msgs, placed + more, rest) == Join(body, placed, Join(msgs, more, rest))
  {
    assert (body + msgs) + rest.msgs == body + (msgs + rest.msgs);
    assert (placed + more) + rest.placed == placed + (more + rest.placed);
  }

  lemma JoinNothing(e: Emitted)
    ensures Join([], map[], e) == e
  {
    assert map[] + e.placed == e.placed;
  }

  /** Compiling the `i`-th member of `s` touches only objects under `s` that the members
      before it did not position, and positions only objects under `s` after them. */
  lemma MemberStep(root: SubPatch, v: View, s: SubPatch, i: int, ctr: map<SubPatch, int>, placed: map<Obj, Position>)
    requires Shape(root, v) && s in v && 0 <= i < |v[s].objects|
    requires forall o | o in placed :: PlacedBefore(o, s, i)
    ensures MemberLeaves(v, s, i) <= Leaves(v, s)
    ensures forall o | o in placed :: o !in MemberLeaves(v, s, i)
    ensures forall o | o in placed + MemberEmit(root, v, s, i, ctr).placed :: PlacedBefore(o, s, i + 1)
  {
    assert MembersValid(s, v[s].objects, v.Keys);
    match v[s].objects[i]
    case Leaf(o) =>
      WithinSelf(s);
    case Nested(c) =>
      ChildFacts(root, v, s, i);
      LeavesUnderChild(v, s, c);
      forall o | o in placed
        ensures o !in Leaves(v, c)
      {
        NotUnderLaterChild(root, v, s, c, o, i);
      }
      var c1 := Gen(ctr, s).0;
      ScopePlacedUnder(root, v, c, c1);
      forall o | o in ScopeEmit(root, v, c, c1).placed
        ensures PlacedBefore(o, s, i + 1)
      {
        assert o.parent.depth - s.depth - 1 == o.parent.depth - c.depth;
      }
  }

  /** Every object `ScopeEmit` positions lies under the scope compiled. */
  lemma {:induction false} ScopePlacedUnder(root: SubPatch, v: View, s: SubPatch, ctr: map<SubPatch, int>)
    requires Shape(root, v) && s in v && (s.name == "main" || s.parent != null)
    ensures forall o | o in ScopeEmit(root, v, s, ctr).placed :: Within(o.parent, s)
    decreases |v| - s.depth, 2, 0
  {
    MembersPlacedUnder(root, v, s, 0, HeaderStep(s, ctr).0);
  }

  lemma {:induction false} MembersPlacedUnder(root: SubPatch, v: View, s: SubPatch, i: int, ctr: map<SubPatch, int>)
    requires Shape(root, v) && s in v && 0 <= i <= |v[s].objects|
    ensures forall o | o in MembersEmit(root, v, s, i, ctr).placed :: Within(o.parent, s)
    decreases |v| - s.depth, 1, |v[s].objects| - i
  {
    if i < |v[s].objects| {
      var e := MemberEmit(root, v, s, i, ctr);
      MemberPlacedUnder(root, v, s, i, ctr);
      MembersPlacedUnder(root, v, s, i + 1, e.ctr);
    }
  }

  lemma {:induction false} MemberPlacedUnder(root: SubPatch, v: View, s: SubPatch, i: int, ctr: map<SubPatch, int>)
    requires Shape(root, v) && s in v && 0 <= i < |v[s].objects|
    ensures forall o | o in MemberEmit(root, v, s, i, ctr).placed :: Within(o.parent, s)
    decreases |v| - s.depth, 0, 0
  {
    var (c1, pos) := Gen(ctr, s);
    assert MembersValid(s, v[s].objects, v.Keys);
    match v[s].objects[i]
    case Leaf(o) =>
      WithinSelf(s);
    case Nested(c) =>
      ChildFacts(root, v, s, i);
      ScopePlacedUnder(root, v, c, c1);
      forall o | o in ScopeEmit(root, v, c, c1).placed
        ensures Within(o.parent, s)
      {
        WithinParent(o.parent, c, s);
      }
  }
}
