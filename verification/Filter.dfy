/** The filter compiler: typed expressions to the platform's wire tree. */
module Filter {
  import opened Prelude

  datatype Comparison =
    | EQUALS | NOT_EQUALS | LIKE | CONTAINS
    | GREATER_THAN | GREATER_THAN_OR_EQUAL | LESS_THAN | LESS_THAN_OR_EQUAL
    | IS_NULL | IS_NOT_NULL

  datatype GroupOp = And | Or

  /** A source expression. Nil is the nil interface value a caller may pass. */
  datatype Expr =
    | Nil
    | Simple(cmp: Comparison, property: string, argument: Option<seq<string>>)
    | Group(op: GroupOp, name: string, nested: seq<Expr>)

  /** A compiled node, as it goes on the wire. */
  datatype Wire =
    | Leaf(cmp: Comparison, property: string, argument: Option<seq<string>>)
    | Node(op: GroupOp, nested: seq<Wire>)

  datatype Fault =
    | EmptyProperty(cmp: Comparison)
    | NoMembers(name: string)
    | NilMember(name: string)

  function Eq(property: string, value: string): Expr {
    Simple(EQUALS, property, Some([value]))
  }

  function EqBool(property: string, v: bool): Expr {
    Eq(property, if v then "true" else "false")
  }

  function AllOf(exprs: seq<Expr>): Expr {
    Group(And, "And", exprs)
  }

  function In(property: string, values: seq<string>): Expr {
    Group(Or, "In", seq(|values|, i requires 0 <= i < |values| => Eq(property, values[i])))
  }

  // ---------------------------------------------------------------- encoding

  function Encode(e: Expr): Result<Wire, Fault>
    requires !e.Nil?
    decreases e, 0
  {
    match e
    case Simple(cmp, property, argument) =>
      if property == "" then Err(EmptyProperty(cmp)) else Ok(Leaf(cmp, property, argument))
    case Group(op, name, nested) =>
      if |nested| == 0 then Err(NoMembers(name))
      else if |nested| == 1 then EncodeMember(nested[0], name)
      else match EncodeAll(nested, name)
        case Ok(wires) => Ok(Node(op, wires))
        case Err(f) => Err(f)
  }

  function EncodeMember(e: Expr, group: string): Result<Wire, Fault>
    decreases e, 1
  {
    if e.Nil? then Err(NilMember(group)) else Encode(e)
  }

  /** Members in order; the first fault wins. */
  function EncodeAll(es: seq<Expr>, group: string): (r: Result<seq<Wire>, Fault>)
    ensures r.Ok? ==> |r.value| == |es|
    decreases es, 0
  {
    if es == [] then Ok([])
    else match EncodeMember(es[0], group)
      case Err(f) => Err(f)
      case Ok(w) =>
        match EncodeAll(es[1..], group)
        case Err(f) => Err(f)
        case Ok(ws) => Ok([w] + ws)
  }

  /** The outcome of a group whose first members have become `done`. */
  function After(done: seq<Wire>, rest: Result<seq<Wire>, Fault>): Result<seq<Wire>, Fault> {
    match rest
    case Ok(ws) => Ok(done + ws)
    case Err(f) => Err(f)
  }

  lemma AfterEnds(done: seq<Wire>, rest: Result<seq<Wire>, Fault>)
    ensures After([], rest) == rest
    ensures After(done, Ok([])) == Ok(done)
  {
    if rest.Ok? {
      assert [] + rest.value == rest.value;
    }
    assert done + [] == done;
  }

  lemma AfterStep(members: seq<Expr>, name: string, done: seq<Wire>, i: nat)
    requires i < |members|
    ensures var w := EncodeMember(members[i], name);
            After(done, EncodeAll(members[i..], name))
            == if w.Err? then Err(w.error) else After(done + [w.value], EncodeAll(members[i + 1..], name))
  {
    assert members[i..][1..] == members[i + 1..];
    var rest := EncodeAll(members[i + 1..], name);
    var w := EncodeMember(members[i], name);
    if w.Ok? && rest.Ok? {
      assert done + ([w.value] + rest.value) == done + [w.value] + rest.value;
    }
  }

  /** The encoder as it runs: the loop over a group fills its slice and stops at the first fault. */
  method RunEncode(e: Expr) returns (r: Result<Wire, Fault>)
    requires !e.Nil?
    ensures r == Encode(e)
    decreases e, 0
  {
    match e
    case Simple(cmp, property, argument) =>
      if property == "" {
        return Err(EmptyProperty(cmp));
      }
      return Ok(Leaf(cmp, property, argument));
    case Group(op, name, members) =>
      if |members| == 0 {
        return Err(NoMembers(name));
      }
      if |members| == 1 {
        r := RunEncodeMember(members[0], name);
        return;
      }
      var wires: seq<Wire> := [];
      var i := 0;
      assert members[0..] == members;
      AfterEnds([], EncodeAll(members, name));
      while i < |members|
        invariant 0 <= i <= |members|
        invariant EncodeAll(members, name) == After(wires, EncodeAll(members[i..], name))
      {
        var w := RunEncodeMember(members[i], name);
        AfterStep(members, name, wires, i);
        if w.Err? {
          return Err(w.error);
        }
        wires := wires + [w.value];
        i := i + 1;
      }
      assert members[i..] == [];
      AfterEnds(wires, Ok([]));
      r := Ok(Node(op, wires));
  }

  method RunEncodeMember(e: Expr, group: string) returns (r: Result<Wire, Fault>)
    ensures r == EncodeMember(e, group)
    decreases e, 1
  {
    if e.Nil? {
      return Err(NilMember(group));
    }
    r := RunEncode(e);
  }

  /** In as it runs: one Eq per value, in order. */
  method RunIn(property: string, values: seq<string>) returns (e: Expr)
    ensures e == In(property, values)
  {
    var nested: seq<Expr> := [];
    var i := 0;
    while i < |values|
      invariant 0 <= i <= |values|
      invariant nested == In(property, values[..i]).nested
    {
      nested := nested + [Eq(property, values[i])];
      i := i + 1;
    }
    assert values[..|values|] == values;
    e := Group(Or, "In", nested);
  }

  // ------------------------------------------------- which trees are accepted

  /** Every fault of the tree, depth first and left to right. */
  function Faults(e: Expr, group: string): seq<Fault>
    decreases e, 0
  {
    match e
    case Nil => [NilMember(group)]
    case Simple(cmp, property, _) => if property == "" then [EmptyProperty(cmp)] else []
    case Group(_, name, nested) => if nested == [] then [NoMembers(name)] else FaultsOfAll(nested, name)
  }

  function FaultsOfAll(es: seq<Expr>, group: string): seq<Fault>
    decreases es, 0
  {
    if es == [] then [] else Faults(es[0], group) + FaultsOfAll(es[1..], group)
  }

  /** No node at any depth is nil, an empty group or an empty property. */
  predicate WellFormed(e: Expr) {
    match e
    case Nil => false
    case Simple(_, property, _) => property != ""
    case Group(_, _, nested) => nested != [] && forall m | m in nested :: WellFormed(m)
  }

  /** The encoder accepts exactly the trees without a fault, and otherwise reports
      the first fault in document order. */
  lemma {:induction false} EncodeReportsFirstFault(e: Expr, group: string)
    ensures var faults := Faults(e, group);
            && (EncodeMember(e, group).Ok? <==> faults == [])
            && (faults != [] ==> EncodeMember(e, group) == Err(faults[0]))
    decreases e, 0
  {
    if e.Group? && e.nested != [] {
      if |e.nested| == 1 {
        EncodeReportsFirstFault(e.nested[0], e.name);
        assert FaultsOfAll(e.nested, e.name) == Faults(e.nested[0], e.name) + FaultsOfAll(e.nested[1..], e.name);
        assert FaultsOfAll(e.nested[1..], e.name) == [];
      } else {
        EncodeAllReportsFirstFault(e.nested, e.name);
      }
    }
  }

  lemma {:induction false} EncodeAllReportsFirstFault(es: seq<Expr>, group: string)
    ensures var faults := FaultsOfAll(es, group);
            && (EncodeAll(es, group).Ok? <==> faults == [])
            && (faults != [] ==> EncodeAll(es, group) == Err(faults[0]))
    decreases es, 0
  {
    if es != [] {
      EncodeReportsFirstFault(es[0], group);
      EncodeAllReportsFirstFault(es[1..], group);
    }
  }

  lemma {:induction false} FaultlessIsWellFormed(e: Expr, group: string)
    ensures Faults(e, group) == [] <==> WellFormed(e)
    decreases e, 0
  {
    if e.Group? {
      FaultlessAll(e.nested, e.name);
    }
  }

  lemma {:induction false} FaultlessAll(es: seq<Expr>, group: string)
    ensures FaultsOfAll(es, group) == [] <==> forall m | m in es :: WellFormed(m)
    decreases es, 0
  {
    if es != [] {
      FaultlessIsWellFormed(es[0], group);
      FaultlessAll(es[1..], group);
      assert forall m | m in es :: m == es[0] || m in es[1..];
    }
  }

  /** Encoding succeeds if and only if the tree is well formed at every depth. */
  lemma EncodeAcceptsWellFormed(e: Expr)
    requires !e.Nil?
    ensures Encode(e).Ok? <==> WellFormed(e)
  {
    EncodeReportsFirstFault(e, "");
    FaultlessIsWellFormed(e, "");
  }

  // ------------------------------------------------------ the normal form

  /** No one-element group (nor an empty one), and no empty property, anywhere. */
  predicate Normal(w: Wire) {
    match w
    case Leaf(_, property, _) => property != ""
    case Node(_, nested) => |nested| >= 2 && forall m | m in nested :: Normal(m)
  }

  lemma {:induction false} EncodeNormal(e: Expr)
    requires !e.Nil? && Encode(e).Ok?
    ensures Normal(Encode(e).value)
    decreases e, 0
  {
    if e.Group? {
      if |e.nested| == 1 {
        EncodeNormal(e.nested[0]);
      } else {
        EncodeAllNormal(e.nested, e.name);
      }
    }
  }

  lemma {:induction false} EncodeAllNormal(es: seq<Expr>, group: string)
    requires EncodeAll(es, group).Ok?
    ensures forall w | w in EncodeAll(es, group).value :: Normal(w)
    decreases es, 0
  {
    if es != [] {
      EncodeNormal(es[0]);
      EncodeAllNormal(es[1..], group);
    }
  }

  /** A wire tree read back as a source expression. */
  function Lift(w: Wire): Expr {
    match w
    case Leaf(cmp, property, argument) => Simple(cmp, property, argument)
    case Node(op, nested) =>
      Group(op, if op == And then "And" else "Or", LiftAll(nested))
  }

  function LiftAll(ws: seq<Wire>): (es: seq<Expr>)
    ensures |es| == |ws|
  {
    if ws == [] then [] else [Lift(ws[0])] + LiftAll(ws[1..])
  }

  /** Wire trees in normal form are exactly the fixed points: re-encoding changes nothing. */
  lemma {:induction false} NormalIsFixed(w: Wire)
    requires Normal(w)
    ensures Encode(Lift(w)) == Ok(w)
    decreases w, 0
  {
    if w.Node? {
      NormalAllFixed(w.nested, if w.op == And then "And" else "Or");
    }
  }

  lemma {:induction false} NormalAllFixed(ws: seq<Wire>, group: string)
    requires forall w | w in ws :: Normal(w)
    ensures EncodeAll(LiftAll(ws), group) == Ok(ws)
    decreases ws, 0
  {
    if ws != [] {
      NormalIsFixed(ws[0]);
      NormalAllFixed(ws[1..], group);
      assert LiftAll(ws)[0] == Lift(ws[0]) && LiftAll(ws)[1..] == LiftAll(ws[1..]);
      assert [ws[0]] + ws[1..] == ws;
    }
  }

  // ------------------------------------------------------------- the meaning

  /** How the platform answers one comparison on one row. */
  type Row = (Comparison, string, Option<seq<string>>) -> bool

  predicate Truth(e: Expr, row: Row)
    decreases e, 0
  {
    match e
    case Nil => false
    case Simple(cmp, property, argument) => row(cmp, property, argument)
    case Group(And, _, nested) => forall i | 0 <= i < |nested| :: Truth(nested[i], row)
    case Group(Or, _, nested) => exists i | 0 <= i < |nested| :: Truth(nested[i], row)
  }

  predicate WireTruth(w: Wire, row: Row) {
    match w
    case Leaf(cmp, property, argument) => row(cmp, property, argument)
    case Node(And, nested) => forall i | 0 <= i < |nested| :: WireTruth(nested[i], row)
    case Node(Or, nested) => exists i | 0 <= i < |nested| :: WireTruth(nested[i], row)
  }

  /** Compilation preserves the meaning: collapsing groups changes no row's answer. */
  lemma {:induction false} EncodePreservesTruth(e: Expr, row: Row)
    requires !e.Nil? && Encode(e).Ok?
    ensures WireTruth(Encode(e).value, row) == Truth(e, row)
    decreases e, 0
  {
    if e.Group? {
      if |e.nested| == 1 {
        EncodePreservesTruth(e.nested[0], row);
        assert Truth(e.nested[0], row) == Truth(e, row);
      } else {
        var ws := EncodeAll(e.nested, e.name).value;
        forall i | 0 <= i < |e.nested| ensures WireTruth(ws[i], row) == Truth(e.nested[i], row) {
          EncodeAllAt(e.nested, e.name, i);
          EncodePreservesTruth(e.nested[i], row);
        }
      }
    }
  }

  lemma {:induction false} EncodeAllAt(es: seq<Expr>, group: string, i: nat)
    requires EncodeAll(es, group).Ok? && i < |es|
    ensures !es[i].Nil? && Encode(es[i]) == Ok(EncodeAll(es, group).value[i])
  {
    if i > 0 {
      EncodeAllAt(es[1..], group, i - 1);
    }
  }

  /** The compiler in one statement: a well-formed tree becomes a normal tree of
      the same meaning, and encoding that tree again is the identity. */
  lemma CompileCorrect(e: Expr, row: Row)
    requires !e.Nil?
    ensures Encode(e).Ok? <==> WellFormed(e)
    ensures WellFormed(e) ==>
              var w := Encode(e).value;
              && Normal(w)
              && WireTruth(w, row) == Truth(e, row)
              && Encode(Lift(w)) == Ok(w)
  {
    EncodeAcceptsWellFormed(e);
    if WellFormed(e) {
      EncodeNormal(e);
      EncodePreservesTruth(e, row);
      NormalIsFixed(Encode(e).value);
    }
  }
}
