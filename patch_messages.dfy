/** The atom lists that purity/obj.py builds for Pure Data's dynamic patching: object
    creation, connection, visibility and clear messages, each addressed to the
    "pd-<name>" receiver of a subpatch, and the plain message to a [receive] object.

    `Parse` is the reading a Pd canvas gives such a list; `Encode` and `Parse` are
    proved to be inverse to each other in both directions. */
module PatchMessages {
  import opened Outcomes

  datatype Atom = Str(s: string) | Num(n: int)

  type Msg = seq<Atom>

  datatype Position = Position(x: int, y: int)

  /** What a message asks a canvas to do. */
  datatype Command =
    | Create(scope: string, pos: Position, name: string, args: seq<Atom>)
    | Connect(scope: string, source: int, outlet: int, sink: int, inlet: int)
    | Vis(scope: string, flag: int)
    | Clear(scope: string)

  const ScopePrefix := "pd-"

  /** The receiver name of the subpatch called `scope`. */
  function Addressee(scope: string): (a: Atom)
    ensures a.Str? && ScopePrefix <= a.s && a.s[|ScopePrefix|..] == scope
  {
    Str(ScopePrefix + scope)
  }

  /** `Obj.get_fudi`: "obj", the position, the class name, then the creation arguments. */
  function ObjectAtoms(pos: Position, name: string, args: seq<Atom>): (m: Msg)
    ensures |m| == 4 + |args| && m[4..] == args
    ensures m[0] == Str("obj") && m[1] == Num(pos.x) && m[2] == Num(pos.y) && m[3] == Str(name)
  {
    [Str("obj"), Num(pos.x), Num(pos.y), Str(name)] + args
  }

  /** `Connection.get_fudi`: "connect", then source id, outlet, sink id and inlet. */
  function ConnectAtoms(source: int, outlet: int, sink: int, inlet: int): (m: Msg)
    ensures |m| == 5 && m[0] == Str("connect")
    ensures m[1] == Num(source) && m[2] == Num(outlet) && m[3] == Num(sink) && m[4] == Num(inlet)
  {
    [Str("connect"), Num(source), Num(outlet), Num(sink), Num(inlet)]
  }

  /** `Receive.send`: the receive symbol followed by the arguments. */
  function SendAtoms(symbol: string, args: seq<Atom>): (m: Msg)
    ensures |m| == 1 + |args| && m[0] == Str(symbol) && m[1..] == args
  {
    [Str(symbol)] + args
  }

  function Encode(c: Command): (m: Msg)
    ensures |m| >= 2 && m[0] == Addressee(c.scope)
  {
    match c
    case Create(scope, pos, name, args) => [Addressee(scope)] + ObjectAtoms(pos, name, args)
    case Connect(scope, source, outlet, sink, inlet) => [Addressee(scope)] + ConnectAtoms(source, outlet, sink, inlet)
    case Vis(scope, flag) => [Addressee(scope), Str("vis"), Num(flag)]
    case Clear(scope) => [Addressee(scope), Str("clear")]
  }

  /** The [pd name] object that creates a subpatch inside its parent. */
  function HeaderCommand(parentName: string, pos: Position, name: string): Command {
    Create(parentName, pos, "pd", [Str(name)])
  }

  /** How a canvas reads a message: None for anything that is not one of the four
      commands. */
  function Parse(m: Msg): (r: Option<Command>)
  {
    if |m| < 2 || !m[0].Str? || !(ScopePrefix <= m[0].s) || !m[1].Str? then None
    else
      var scope := m[0].s[|ScopePrefix|..];
      var verb := m[1].s;
      if verb == "obj" then
        if |m| >= 5 && m[2].Num? && m[3].Num? && m[4].Str? then
          Some(Create(scope, Position(m[2].n, m[3].n), m[4].s, m[5..]))
        else None
      else if verb == "connect" then
        if |m| == 6 && m[2].Num? && m[3].Num? && m[4].Num? && m[5].Num? then
          Some(Connect(scope, m[2].n, m[3].n, m[4].n, m[5].n))
        else None
      else if verb == "vis" then
        if |m| == 3 && m[2].Num? then Some(Vis(scope, m[2].n)) else None
      else if verb == "clear" then
        if |m| == 2 then Some(Clear(scope)) else None
      else None
  }

  /** Every command is read back as itself. */
  lemma ParseEncode(c: Command)
    ensures Parse(Encode(c)) == Some(c)
  {
    var m := Encode(c);
    assert m[0].s[|ScopePrefix|..] == c.scope;
    match c
    case Create(scope, pos, name, args) =>
      assert m[5..] == args;
    case Connect(_, _, _, _, _) =>
    case Vis(_, _) =>
    case Clear(_) =>
  }

  /** Every message a canvas accepts is the encoding of what it reads. */
  lemma EncodeParse(m: Msg)
    requires Parse(m).Some?
    ensures Encode(Parse(m).value) == m
  {
    var c := Parse(m).value;
    assert ScopePrefix + m[0].s[|ScopePrefix|..] == m[0].s;
    var e := Encode(c);
    assert e[0] == m[0];
    if c.Create? {
      assert e[1..5] == m[1..5];
      assert e[5..] == m[5..];
      assert e == e[..1] + e[1..5] + e[5..];
      assert m == m[..1] + m[1..5] + m[5..];
    } else {
      assert |e| == |m|;
      assert forall k | 0 <= k < |m| :: e[k] == m[k];
    }
  }

  /** Different commands are different messages. */
  lemma EncodeInjective(c: Command, d: Command)
    requires Encode(c) == Encode(d)
    ensures c == d
  {
    ParseEncode(c);
    ParseEncode(d);
  }

  predicate CreatesIn(m: Msg, scope: string) {
    Parse(m).Some? && Parse(m).value.Create? && Parse(m).value.scope == scope
  }

  predicate ConnectsIn(m: Msg, scope: string) {
    Parse(m).Some? && Parse(m).value.Connect? && Parse(m).value.scope == scope
  }

  /** The messages addressed to `scope`. */
  predicate AddressedTo(m: Msg, scope: string) {
    |m| > 0 && m[0] == Addressee(scope)
  }

  lemma AddresseeInjective(a: string, b: string)
    requires Addressee(a) == Addressee(b)
    ensures a == b
  {
    assert Addressee(a).s[|ScopePrefix|..] == a;
  }
}
