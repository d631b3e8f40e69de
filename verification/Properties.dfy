/** Persisted process properties: the in-place upsert that a full-replace write relies on. */
module Properties {
  import opened Prelude

  const TYPE_PROPERTY := "ProcessProperty"
  const TYPE_PROPERTIES := "ProcessProperties"
  const TYPE_PROCESS := "DeployedProcess"

  datatype Property = Property(typ: string, name: string, value: string)

  /** A process with its property list as a value. */
  datatype Process = Process(typ: string, processId: string, listType: string, props: seq<Property>)

  function NewProperty(name: string, value: string): Property {
    Property(TYPE_PROPERTY, name, value)
  }

  function NewProcess(processId: string, props: seq<Property>): Process {
    Process(TYPE_PROCESS, processId, TYPE_PROPERTIES, props)
  }

  // ------------------------------------------------------- the specification

  /** The first index at or after i of this process, or the length. */
  function ProcessIndex(v: seq<Process>, pid: string, i: nat): (r: nat)
    requires i <= |v|
    ensures i <= r <= |v|
    ensures forall k | i <= k < r :: v[k].processId != pid
    ensures r < |v| ==> v[r].processId == pid
    decreases |v| - i
  {
    if i == |v| || v[i].processId == pid then i else ProcessIndex(v, pid, i + 1)
  }

  /** The first index at or after j of this name, or the length. */
  function NameIndex(props: seq<Property>, name: string, j: nat): (r: nat)
    requires j <= |props|
    ensures j <= r <= |props|
    ensures forall k | j <= k < r :: props[k].name != name
    ensures r < |props| ==> props[r].name == name
    decreases |props| - j
  {
    if j == |props| || props[j].name == name then j else NameIndex(props, name, j + 1)
  }

  function SetProperty(props: seq<Property>, name: string, value: string): seq<Property> {
    var j := NameIndex(props, name, 0);
    if j < |props| then props[j := props[j].(value := value)] else props + [NewProperty(name, value)]
  }

  function Upsert(v: seq<Process>, pid: string, name: string, value: string): seq<Process> {
    var i := ProcessIndex(v, pid, 0);
    if i == |v| then v + [NewProcess(pid, [NewProperty(name, value)])]
    else if NameIndex(v[i].props, name, 0) < |v[i].props| then
      v[i := v[i].(props := SetProperty(v[i].props, name, value))]
    else v[i := NewProcess(pid, SetProperty(v[i].props, name, value))]
  }

  /** What a reader finds: the first entry of the first process of that id. */
  function Lookup(v: seq<Process>, pid: string, name: string): Option<string> {
    var i := ProcessIndex(v, pid, 0);
    if i == |v| then None
    else
      var j := NameIndex(v[i].props, name, 0);
      if j == |v[i].props| then None else Some(v[i].props[j].value)
  }

  // -------------------------------------------------------------- the object

  /** A process as the program holds it: its property list is a shared array. */
  datatype Slot = Slot(typ: string, processId: string, listType: string, props: array<Property>)

  class Persisted {
    var process: seq<Slot>

    /** No two processes share a backing array. */
    ghost predicate Valid()
      reads this
    {
      forall i, j | 0 <= i < j < |process| :: process[i].props != process[j].props
    }

    ghost function Arrays(): set<array<Property>>
      reads this
    {
      set i | 0 <= i < |process| :: process[i].props
    }

    ghost function View(): seq<Process>
      reads this, Arrays()
    {
      seq(|process|, i requires 0 <= i < |process| reads this, Arrays() =>
        Process(process[i].typ, process[i].processId, process[i].listType, process[i].props[..]))
    }

    constructor ()
      ensures Valid() && View() == []
    {
      process := [];
    }

    /** Overwrites the value in place when the entry exists, and otherwise appends
        an entry or a process; the whole state afterwards is the specified one. */
    method Set(pid: string, name: string, value: string)
      requires Valid()
      modifies this, Arrays()
      ensures Valid() && fresh(Arrays() - old(Arrays()))
      ensures View() == Upsert(old(View()), pid, name, value)
      ensures Lookup(old(View()), pid, name).Some? ==> process == old(process)
    {
      ghost var v := View();
      var i := 0;
      while i < |process|
        invariant 0 <= i <= |process| && process == old(process)
        invariant ProcessIndex(v, pid, 0) == ProcessIndex(v, pid, i)
        invariant View() == v
      {
        if process[i].processId == pid {
          SetIn(i, name, value);
          return;
        }
        i := i + 1;
      }
      var props := new Property[1](_ => NewProperty(name, value));
      assert props[..] == [NewProperty(name, value)];
      process := process + [Slot(TYPE_PROCESS, pid, TYPE_PROPERTIES, props)];
      assert View() == v + [NewProcess(pid, [NewProperty(name, value)])];
    }

    /** The update of the one process that was found. */
    method SetIn(i: nat, name: string, value: string)
      requires Valid() && i < |process|
      modifies this, process[i].props
      ensures Valid() && fresh(Arrays() - old(Arrays()))
      ensures var p := old(View())[i];
              var props := SetProperty(p.props, name, value);
              View() == old(View())[i := if NameIndex(p.props, name, 0) < |p.props| then p.(props := props)
                                         else NewProcess(p.processId, props)]
      ensures NameIndex(old(View())[i].props, name, 0) < |old(View())[i].props| ==> process == old(process)
    {
      ghost var before := View()[i].props;
      var props := process[i].props;
      var j := 0;
      while j < props.Length
        invariant 0 <= j <= props.Length && process == old(process)
        invariant props[..] == before && View() == old(View())
        invariant NameIndex(before, name, 0) == NameIndex(before, name, j)
      {
        if props[j].name == name {
          props[j] := props[j].(value := value);
          assert props[..] == SetProperty(before, name, value);
          return;
        }
        j := j + 1;
      }
      var more := new Property[props.Length + 1](k requires 0 <= k <= props.Length reads props =>
        if k < props.Length then props[k] else NewProperty(name, value));
      assert more[..] == before + [NewProperty(name, value)];
      process := process[i := Slot(TYPE_PROCESS, process[i].processId, TYPE_PROPERTIES, more)];
    }
  }

  // ------------------------------------------------------------- properties

  /** The property list as a function of the name, first match. */
  function Find(props: seq<Property>, name: string): Option<string> {
    var j := NameIndex(props, name, 0);
    if j == |props| then None else Some(props[j].value)
  }

  lemma IndexDetermined(props: seq<Property>, name: string, r: nat)
    requires r <= |props| && (forall k | 0 <= k < r :: props[k].name != name)
    requires r < |props| ==> props[r].name == name
    ensures NameIndex(props, name, 0) == r
  {
  }

  lemma ProcessDetermined(v: seq<Process>, pid: string, r: nat)
    requires r <= |v| && (forall k | 0 <= k < r :: v[k].processId != pid)
    requires r < |v| ==> v[r].processId == pid
    ensures ProcessIndex(v, pid, 0) == r
  {
  }

  lemma SetFinds(props: seq<Property>, name: string, value: string, other: string)
    ensures Find(SetProperty(props, name, value), other) == if other == name then Some(value) else Find(props, other)
    ensures NameIndex(SetProperty(props, name, value), name, 0) == NameIndex(props, name, 0)
  {
    var after := SetProperty(props, name, value);
    var j, o := NameIndex(props, name, 0), NameIndex(props, other, 0);
    IndexDetermined(after, name, j);
    if other != name {
      IndexDetermined(after, other, if o < |props| then o else |after|);
    }
  }

  lemma UpsertIndex(v: seq<Process>, pid: string, name: string, value: string, other: string)
    ensures var u := Upsert(v, pid, name, value);
            ProcessIndex(u, other, 0) == if other == pid || ProcessIndex(v, other, 0) < |v|
                                         then ProcessIndex(v, other, 0) else |u|
  {
    var u := Upsert(v, pid, name, value);
    var i := ProcessIndex(v, other, 0);
    ProcessDetermined(u, other, if other == pid || i < |v| then i else |u|);
  }

  /** An upsert is a map update under first-match lookup: its key now yields the
      new value, and every other (process, name) key what it yielded before. */
  lemma UpsertIsMapUpdate(v: seq<Process>, pid: string, name: string, value: string, otherPid: string, otherName: string)
    ensures Lookup(Upsert(v, pid, name, value), otherPid, otherName)
            == if otherPid == pid && otherName == name then Some(value) else Lookup(v, otherPid, otherName)
  {
    var u := Upsert(v, pid, name, value);
    var i, o := ProcessIndex(v, pid, 0), ProcessIndex(v, otherPid, 0);
    UpsertIndex(v, pid, name, value, otherPid);
    if otherPid == pid {
      var props := if i < |v| then v[i].props else [];
      SetFinds(props, name, value, otherName);
      assert Lookup(u, pid, otherName) == Find(u[i].props, otherName);
      assert u[i].props == SetProperty(props, name, value);
    } else if o < |v| {
      assert u[o] == v[o];
    }
  }

  /** The same entries in the same places, the first of that name with the new
      value; or, if there was none of that name, one more entry behind them. */
  predicate Grown(before: Process, after: Process, name: string, value: string) {
    && after.processId == before.processId
    && var j := NameIndex(before.props, name, 0);
    && |after.props| == (if j < |before.props| then |before.props| else |before.props| + 1)
    && (forall k | 0 <= k < |before.props| && k != j :: after.props[k] == before.props[k])
    && if j < |before.props| then
         && after.props[j] == before.props[j].(value := value)
         && after.typ == before.typ && after.listType == before.listType
       else
         && after.props[j] == Property("ProcessProperty", name, value)
         && after.typ == "DeployedProcess" && after.listType == "ProcessProperties"
  }

  /** Nothing is removed or reordered: only the first process of that id can
      change, and at most one thing is new, an entry in it or a process of one entry. */
  lemma UpsertKeepsEntries(v: seq<Process>, pid: string, name: string, value: string)
    ensures var u, i := Upsert(v, pid, name, value), ProcessIndex(v, pid, 0);
            && |u| == (if i < |v| then |v| else |v| + 1)
            && (forall k | 0 <= k < |v| && k != i :: u[k] == v[k])
            && (if i < |v| then Grown(v[i], u[i], name, value)
                else u[i] == Process("DeployedProcess", pid, "ProcessProperties", [Property("ProcessProperty", name, value)]))
  {
  }

  /** Repeating an upsert changes nothing, types and duplicates included. */
  lemma UpsertIdempotent(v: seq<Process>, pid: string, name: string, value: string)
    ensures var u := Upsert(v, pid, name, value);
            Upsert(u, pid, name, value) == u
  {
    var u := Upsert(v, pid, name, value);
    var i := ProcessIndex(v, pid, 0);
    UpsertIndex(v, pid, name, value, pid);
    var props := if i < |v| then v[i].props else [];
    assert u[i].props == SetProperty(props, name, value);
    var j := NameIndex(props, name, 0);
    IndexDetermined(u[i].props, name, j);
    assert SetProperty(u[i].props, name, value) == u[i].props;
    assert u[i].(props := u[i].props) == u[i];
  }

  datatype Update = Update(pid: string, name: string, value: string)

  /** A read-modify-write session: any number of upserts, in order. */
  function UpsertAll(v: seq<Process>, updates: seq<Update>): seq<Process> {
    if updates == [] then v
    else
      var last := updates[|updates| - 1];
      Upsert(UpsertAll(v, updates[..|updates| - 1]), last.pid, last.name, last.value)
  }

  /** The value the last update of a key in the session gave it. */
  function LastValue(updates: seq<Update>, pid: string, name: string): Option<string> {
    if updates == [] then None
    else
      var last := updates[|updates| - 1];
      if last.pid == pid && last.name == name then Some(last.value)
      else LastValue(updates[..|updates| - 1], pid, name)
  }

  /** After a whole session each key reads as its last update, or as before the
      session; so updates of different keys may be made in any order. */
  lemma {:induction false} SessionIsOverride(v: seq<Process>, updates: seq<Update>, pid: string, name: string)
    ensures Lookup(UpsertAll(v, updates), pid, name)
            == if LastValue(updates, pid, name).Some? then LastValue(updates, pid, name) else Lookup(v, pid, name)
  {
    if updates != [] {
      var front, last := updates[..|updates| - 1], updates[|updates| - 1];
      SessionIsOverride(v, front, pid, name);
      UpsertIsMapUpdate(UpsertAll(v, front), last.pid, last.name, last.value, pid, name);
    }
  }

  /** Updates of two different keys give the same lookups in either order. */
  lemma UpsertsCommute(v: seq<Process>, a: Update, b: Update, pid: string, name: string)
    requires a.pid != b.pid || a.name != b.name
    ensures Lookup(Upsert(Upsert(v, a.pid, a.name, a.value), b.pid, b.name, b.value), pid, name)
            == Lookup(Upsert(Upsert(v, b.pid, b.name, b.value), a.pid, a.name, a.value), pid, name)
  {
    UpsertIsMapUpdate(v, a.pid, a.name, a.value, pid, name);
    UpsertIsMapUpdate(v, b.pid, b.name, b.value, pid, name);
    UpsertIsMapUpdate(Upsert(v, a.pid, a.name, a.value), b.pid, b.name, b.value, pid, name);
    UpsertIsMapUpdate(Upsert(v, b.pid, b.name, b.value), a.pid, a.name, a.value, pid, name);
  }
}
