/**
 * The student registry of hw1 (StudentManager): records keyed by student number in a
 * dictionary, which Python keeps in insertion order. The registry is modelled as that
 * ordered sequence of records; `Table` is the dictionary view the operations promise.
 */
module Students {
  import opened Wrappers

  datatype Gender = Female | Male

  datatype Student = Student(id: int, name: string, gender: Gender, dorm: int, telephone: string)

  /** The dictionary's entries in insertion order. */
  datatype Registry = Registry(entries: seq<Student>)

  const EMPTY := Registry([])

  /** No student number is stored twice, as a dictionary guarantees. */
  ghost predicate Valid(r: Registry) {
    forall i, j :: 0 <= i < j < |r.entries| ==> r.entries[i].id != r.entries[j].id
  }

  /** The dictionary view, student number to record, built by replaying the insertions. */
  ghost function Table(r: Registry): map<int, Student>
    decreases |r.entries|
  {
    if r.entries == [] then map[]
    else
      var last := r.entries[|r.entries| - 1];
      Table(Registry(r.entries[..|r.entries| - 1]))[last.id := last]
  }

  /** The numbers stored. */
  ghost function Ids(entries: seq<Student>): set<int> {
    set i | 0 <= i < |entries| :: entries[i].id
  }

  lemma {:induction false} TableKeys(r: Registry)
    ensures Table(r).Keys == Ids(r.entries)
    decreases |r.entries|
  {
    if r.entries != [] {
      var init := r.entries[..|r.entries| - 1];
      TableKeys(Registry(init));
      assert Ids(r.entries) == Ids(init) + {r.entries[|r.entries| - 1].id};
    }
  }

  /** A stored record is found under its own number. */
  lemma {:induction false} TableAt(r: Registry, i: int)
    requires Valid(r) && 0 <= i < |r.entries|
    ensures r.entries[i].id in Table(r) && Table(r)[r.entries[i].id] == r.entries[i]
    decreases |r.entries|
  {
    if i < |r.entries| - 1 {
      var init := Registry(r.entries[..|r.entries| - 1]);
      TableAt(init, i);
    }
  }

  /** The position of the record numbered `id`, if any. */
  function IndexOf(entries: seq<Student>, id: int): (r: Option<nat>)
    ensures r.Some? ==> r.value < |entries| && entries[r.value].id == id
    ensures r.None? ==> forall i :: 0 <= i < |entries| ==> entries[i].id != id
    decreases |entries|
  {
    if entries == [] then None
    else if entries[|entries| - 1].id == id then Some(|entries| - 1)
    else IndexOf(entries[..|entries| - 1], id)
  }

  /** `student_id in self._students`. */
  lemma InTable(r: Registry, id: int)
    requires Valid(r)
    ensures id in Table(r) <==> IndexOf(r.entries, id).Some?
  {
    TableKeys(r);
    if IndexOf(r.entries, id).Some? {
      TableAt(r, IndexOf(r.entries, id).value);
    }
  }

  /** `add_student`: refused for a number already stored, otherwise appended. */
  function AddStudent(r: Registry, s: Student): (res: (Registry, bool))
    ensures !res.1 ==> res.0 == r
  {
    if IndexOf(r.entries, s.id).Some? then (r, false)
    else (Registry(r.entries + [s]), true)
  }

  /** `remove_student`: deletes the record numbered `id`, reporting whether there was one. */
  function RemoveStudent(r: Registry, id: int): (res: (Registry, bool))
    ensures !res.1 ==> res.0 == r
    ensures |res.0.entries| == |r.entries| - (if res.1 then 1 else 0)
  {
    match IndexOf(r.entries, id)
    case Some(i) => (Registry(r.entries[..i] + r.entries[i + 1..]), true)
    case None => (r, false)
  }

  /** `find_student`: `dict.get`, a linear scan here. */
  method FindStudent(r: Registry, id: int) returns (found: Option<Student>)
    requires Valid(r)
    ensures id in Table(r) ==> found == Some(Table(r)[id])
    ensures id !in Table(r) ==> found == None
  {
    var i := 0;
    while i < |r.entries|
      invariant 0 <= i <= |r.entries|
      invariant forall j :: 0 <= j < i ==> r.entries[j].id != id
    {
      if r.entries[i].id == id {
        TableAt(r, i);
        return Some(r.entries[i]);
      }
      i := i + 1;
    }
    InTable(r, id);
    return None;
  }

  /** `list_all_students`: the stored records in insertion order. */
  function ListAll(r: Registry): (students: seq<Student>)
    ensures |students| == |r.entries|
  {
    r.entries
  }

  // ---------------------------------------------------------------------------
  // The operations against the dictionary view
  // ---------------------------------------------------------------------------

  /** Adding succeeds exactly for a new number, which then maps to the new record; every other
      entry is kept, and a refused add changes nothing. */
  lemma AddStudentTable(r: Registry, s: Student)
    requires Valid(r)
    ensures var (r', ok) := AddStudent(r, s);
      && Valid(r')
      && (ok <==> s.id !in Table(r))
      && (ok ==> Table(r') == Table(r)[s.id := s])
      && (!ok ==> r' == r)
  {
    InTable(r, s.id);
    var (r', ok) := AddStudent(r, s);
    if ok {
      assert r'.entries[..|r'.entries| - 1] == r.entries;
    }
  }

  lemma DeleteKeepsValid(e: seq<Student>, n: nat)
    requires Valid(Registry(e)) && n < |e|
    ensures Valid(Registry(e[..n] + e[n + 1..]))
  {
    var d := e[..n] + e[n + 1..];
    assert forall j :: 0 <= j < |d| ==> d[j] == e[if j < n then j else j + 1];
  }

  /** Removing one key and setting another commute. */
  lemma RemoveThenSet(m: map<int, Student>, x: int, y: int, v: Student)
    requires x != y
    ensures (m - {x})[y := v] == m[y := v] - {x}
  {
  }

  /** Deleting the newest record undoes its insertion. */
  lemma TableDeleteLast(e: seq<Student>)
    requires Valid(Registry(e)) && e != []
    ensures Table(Registry(e[..|e| - 1])) == Table(Registry(e)) - {e[|e| - 1].id}
  {
    var init := e[..|e| - 1];
    var last := e[|e| - 1];
    assert Table(Registry(e)) == Table(Registry(init))[last.id := last];
    TableKeys(Registry(init));
    assert last.id !in Table(Registry(init));
  }

  /** Deleting the record at position `n` deletes its number from the dictionary view. */
  lemma {:induction false} TableDelete(e: seq<Student>, n: nat)
    requires Valid(Registry(e)) && n < |e|
    ensures Valid(Registry(e[..n] + e[n + 1..]))
    ensures Table(Registry(e[..n] + e[n + 1..])) == Table(Registry(e)) - {e[n].id}
    decreases |e|
  {
    DeleteKeepsValid(e, n);
    var d := e[..n] + e[n + 1..];
    if n == |e| - 1 {
      assert d == e[..|e| - 1];
      TableDeleteLast(e);
    } else {
      var init := e[..|e| - 1];
      var last := e[|e| - 1];
      assert Valid(Registry(init));
      TableDelete(init, n);
      var d' := init[..n] + init[n + 1..];
      assert d[..|d| - 1] == d' && d[|d| - 1] == last;
      assert Table(Registry(d)) == Table(Registry(d'))[last.id := last];
      assert Table(Registry(e)) == Table(Registry(init))[last.id := last];
      assert init[n] == e[n] && e[n].id != last.id;
      RemoveThenSet(Table(Registry(init)), e[n].id, last.id, last);
    }
  }

  /** Removing succeeds exactly for a stored number, which is gone afterwards; every other entry is
      kept. */
  lemma RemoveStudentTable(r: Registry, id: int)
    requires Valid(r)
    ensures var (r', ok) := RemoveStudent(r, id);
      && Valid(r')
      && (ok <==> id in Table(r))
      && Table(r') == Table(r) - {id}
  {
    InTable(r, id);
    match IndexOf(r.entries, id)
    case Some(i) =>
      TableDelete(r.entries, i);
    case None =>
      assert Table(r) - {id} == Table(r);
  }

  /** The listing holds exactly the stored records, each under its own number, one per number. */
  lemma ListAllTable(r: Registry)
    requires Valid(r)
    ensures forall s :: s in ListAll(r) ==> s.id in Table(r) && Table(r)[s.id] == s
    ensures forall k :: k in Table(r) ==> Table(r)[k] in ListAll(r)
    ensures |ListAll(r)| == |Table(r).Keys|
  {
    forall s | s in ListAll(r) ensures s.id in Table(r) && Table(r)[s.id] == s {
      var i :| 0 <= i < |r.entries| && r.entries[i] == s;
      TableAt(r, i);
    }
    forall k | k in Table(r) ensures Table(r)[k] in ListAll(r) {
      TableKeys(r);
      var i :| 0 <= i < |r.entries| && r.entries[i].id == k;
      TableAt(r, i);
    }
    DistinctIdsCount(r.entries);
    TableKeys(r);
  }

  /** Distinct numbers: as many numbers as records. */
  lemma {:induction false} DistinctIdsCount(entries: seq<Student>)
    requires Valid(Registry(entries))
    ensures |Ids(entries)| == |entries|
    decreases |entries|
  {
    if entries != [] {
      var init := entries[..|entries| - 1];
      var last := entries[|entries| - 1];
      assert Valid(Registry(init));
      DistinctIdsCount(init);
      assert Ids(entries) == Ids(init) + {last.id};
      assert last.id !in Ids(init);
    }
  }

  /** Adding a new student makes it findable; adding a number twice is refused the second time. */
  lemma AddThenFind(r: Registry, s: Student)
    requires Valid(r) && s.id !in Table(r)
    ensures AddStudent(r, s).1
    ensures s.id in Table(AddStudent(r, s).0) && Table(AddStudent(r, s).0)[s.id] == s
    ensures !AddStudent(AddStudent(r, s).0, s).1
  {
    AddStudentTable(r, s);
    AddStudentTable(AddStudent(r, s).0, s);
  }

  /** Removing an added student restores the dictionary view. */
  lemma AddThenRemove(r: Registry, s: Student)
    requires Valid(r) && s.id !in Table(r)
    ensures Valid(AddStudent(r, s).0)
    ensures Table(RemoveStudent(AddStudent(r, s).0, s.id).0) == Table(r)
  {
    AddStudentTable(r, s);
    RemoveStudentTable(AddStudent(r, s).0, s.id);
    assert Table(r)[s.id := s] - {s.id} == Table(r);
  }
}
