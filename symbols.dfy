/** The calculator's symbol table: `vector<Variable> var_names`, scanned linearly by
    `is_declared`, `get_value` and `set_value` and grown by `push_back` in `declaration`.
    The specification functions work on the sequence of variables; `SymbolTable` is the vector
    the source updates in place. */
module Symbols {
  import opened Errors

  /** `struct Variable { string name; double value; }` */
  datatype Variable = Variable(name: string, value: real)

  /** The table's names, in order. */
  function Names(vars: seq<Variable>): (ns: seq<string>)
    ensures |ns| == |vars|
    ensures forall i :: 0 <= i < |vars| ==> ns[i] == vars[i].name
  {
    if vars == [] then [] else [vars[0].name] + Names(vars[1..])
  }

  /** The table invariant: no two variables share a name. */
  ghost predicate UniqueNames(vars: seq<Variable>) {
    forall i, j :: 0 <= i < j < |vars| ==> vars[i].name != vars[j].name
  }

  /** `is_declared(s)`: some entry is named `s`. */
  predicate Declared(vars: seq<Variable>, s: string) {
    exists i :: 0 <= i < |vars| && vars[i].name == s
  }

  /** A name is declared exactly when it is among the names of the table. */
  lemma DeclaredInNames(vars: seq<Variable>, s: string)
    ensures Declared(vars, s) <==> s in Names(vars)
  {
    if s in Names(vars) {
      var i :| 0 <= i < |Names(vars)| && Names(vars)[i] == s;
      assert vars[i].name == s;
    }
  }

  /** Entry `i` is the first entry named `s`: the one every linear scan stops at. */
  ghost predicate FirstNamed(vars: seq<Variable>, s: string, i: int) {
    0 <= i < |vars| && vars[i].name == s && forall j :: 0 <= j < i ==> vars[j].name != s
  }

  /** The index a front-to-back scan for `s` stops at, if any. */
  function FirstIndex(vars: seq<Variable>, s: string): (r: Option<nat>)
    ensures r.Some? ==> FirstNamed(vars, s, r.value)
    ensures r.None? <==> !Declared(vars, s)
  {
    if vars == [] then None
    else if vars[0].name == s then Some(0)
    else
      match FirstIndex(vars[1..], s)
      case None =>
        assert forall i :: 1 <= i < |vars| ==> vars[i] == vars[1..][i - 1];
        None
      case Some(i) => Some(i + 1)
  }

  /** `get_value(s)`: the value of the first entry named `s`, or "get: undefined name". */
  function Lookup(vars: seq<Variable>, s: string): (r: Result<real>)
    ensures r.Ok? <==> Declared(vars, s)
    ensures r.Ok? ==> exists i :: FirstNamed(vars, s, i) && vars[i].value == r.value
    ensures r.Err? ==> r.error == GetUndefined(s)
  {
    match FirstIndex(vars, s)
    case Some(i) => Ok(vars[i].value)
    case None => Err(GetUndefined(s))
  }

  /** `set_value(s, d)` as evidently intended: the first entry named `s` gets value `d`, and an
      absent name is the error "set: undefined name". */
  function Assign(vars: seq<Variable>, s: string, d: real): (r: Result<seq<Variable>>)
    ensures r.Ok? <==> Declared(vars, s)
    ensures r.Ok? ==> exists i :: FirstNamed(vars, s, i) && r.value == vars[i := Variable(s, d)]
    ensures r.Err? ==> r.error == SetUndefined(s)
  {
    match FirstIndex(vars, s)
    case Some(i) => Ok(vars[i := Variable(s, d)])
    case None => Err(SetUndefined(s))
  }

  /** `var_names.push_back(Variable(name, d))` */
  function Define(vars: seq<Variable>, name: string, d: real): (r: seq<Variable>)
    ensures Names(r) == Names(vars) + [name]
    ensures |r| == |vars| + 1 && r[|vars|] == Variable(name, d) && forall k :: 0 <= k < |vars| ==> r[k] == vars[k]
  {
    vars + [Variable(name, d)]
  }

  lemma {:induction false} FirstNamedIsUnique(vars: seq<Variable>, s: string, i: int, k: int)
    requires FirstNamed(vars, s, i) && FirstNamed(vars, s, k)
    ensures i == k
  {
  }

  /** `get_value(s)` returns the value of an entry named `s`, and under the uniqueness invariant
      that entry is the only one. */
  lemma LookupUnique(vars: seq<Variable>, s: string, i: int)
    requires UniqueNames(vars)
    requires 0 <= i < |vars| && vars[i].name == s
    ensures Lookup(vars, s) == Ok(vars[i].value)
  {
    var k :| FirstNamed(vars, s, k) && vars[k].value == Lookup(vars, s).value;
    assert FirstNamed(vars, s, i);
    FirstNamedIsUnique(vars, s, i, k);
  }

  /** `set_value` keeps the length and the names, and changes nothing but one value. */
  lemma AssignFrame(vars: seq<Variable>, s: string, d: real)
    requires Declared(vars, s)
    ensures |Assign(vars, s, d).value| == |vars|
    ensures Names(Assign(vars, s, d).value) == Names(vars)
    ensures forall j :: 0 <= j < |vars| && vars[j].name != s ==> Assign(vars, s, d).value[j] == vars[j]
  {
    var i := FirstIndex(vars, s).value;
    var r := Assign(vars, s, d).value;
    assert r == vars[i := Variable(s, d)];
    assert forall j :: 0 <= j < |vars| ==> Names(r)[j] == Names(vars)[j];
  }

  /** Two tables with the same names are scanned alike. */
  lemma SameNamesSameIndex(a: seq<Variable>, b: seq<Variable>, t: string)
    requires Names(a) == Names(b)
    ensures FirstIndex(a, t) == FirstIndex(b, t)
  {
    assert forall j :: 0 <= j < |a| ==> a[j].name == Names(a)[j] == Names(b)[j] == b[j].name;
    match FirstIndex(a, t)
    case None =>
      assert !Declared(b, t);
    case Some(i) =>
      assert FirstNamed(b, t, i);
      FirstNamedIsUnique(b, t, i, FirstIndex(b, t).value);
  }

  /** After `set_value(s, d)`, `get_value(s)` yields `d`. */
  lemma AssignThenLookup(vars: seq<Variable>, s: string, d: real)
    requires Declared(vars, s)
    ensures Lookup(Assign(vars, s, d).value, s) == Ok(d)
  {
    var i := FirstIndex(vars, s).value;
    var r := Assign(vars, s, d).value;
    assert r == vars[i := Variable(s, d)];
    AssignFrame(vars, s, d);
    SameNamesSameIndex(r, vars, s);
  }

  /** `set_value(s, d)` leaves every other name reading as before. */
  lemma AssignThenLookupOther(vars: seq<Variable>, s: string, d: real, t: string)
    requires Declared(vars, s) && t != s
    ensures Lookup(Assign(vars, s, d).value, t) == Lookup(vars, t)
  {
    var r := Assign(vars, s, d).value;
    AssignFrame(vars, s, d);
    SameNamesSameIndex(r, vars, t);
  }

  /** The append in `declaration` keeps the names unique exactly when the name is fresh. */
  lemma DefineKeepsUnique(vars: seq<Variable>, name: string, d: real)
    requires UniqueNames(vars)
    ensures UniqueNames(Define(vars, name, d)) <==> !Declared(vars, name)
  {
    var r := Define(vars, name, d);
    if Declared(vars, name) {
      var i :| 0 <= i < |vars| && vars[i].name == name;
      assert r[i].name == r[|vars|].name;
    }
  }

  /** A scan of the grown table stops where the scan of the old one stopped, and otherwise
      at the new entry when that carries the name. */
  lemma FirstIndexDefine(vars: seq<Variable>, name: string, d: real, t: string)
    ensures FirstIndex(Define(vars, name, d), t) ==
      if Declared(vars, t) then FirstIndex(vars, t)
      else if name == t then Some(|vars|) else None
  {
    var r := Define(vars, name, d);
    if Declared(vars, t) {
      var k := FirstIndex(vars, t).value;
      assert FirstNamed(r, t, k);
      assert Declared(r, t);
      FirstNamedIsUnique(r, t, k, FirstIndex(r, t).value);
    } else if name == t {
      assert FirstNamed(r, t, |vars|);
      assert Declared(r, t);
      FirstNamedIsUnique(r, t, |vars|, FirstIndex(r, t).value);
    } else {
      assert !Declared(r, t);
    }
  }

  /** After `declaration` pushes a fresh `name` with value `d`, `get_value(name)` yields `d`. */
  lemma DefineThenLookup(vars: seq<Variable>, name: string, d: real)
    requires !Declared(vars, name)
    ensures Lookup(Define(vars, name, d), name) == Ok(d)
  {
    FirstIndexDefine(vars, name, d, name);
  }

  /** The `push_back` leaves every other name reading as before. */
  lemma DefineThenLookupOther(vars: seq<Variable>, name: string, d: real, t: string)
    requires t != name
    ensures Lookup(Define(vars, name, d), t) == Lookup(vars, t)
  {
    FirstIndexDefine(vars, name, d, t);
  }

  /** `set_value` keeps the names unique. */
  lemma AssignKeepsUnique(vars: seq<Variable>, s: string, d: real)
    requires UniqueNames(vars) && Declared(vars, s)
    ensures UniqueNames(Assign(vars, s, d).value)
  {
    AssignFrame(vars, s, d);
    var r := Assign(vars, s, d).value;
    assert forall j :: 0 <= j < |vars| ==> r[j].name == Names(r)[j] == Names(vars)[j] == vars[j].name;
  }

  /** The indices at which `set_value`'s loop, AS WRITTEN with the bound `i <= var_names.size()`,
      reads `var_names[i]`, starting from `i`. Index `|vars|` is one past the end. */
  function AsWrittenProbesFrom(vars: seq<Variable>, s: string, i: nat): seq<nat>
    decreases |vars| + 1 - i
  {
    if i > |vars| then []
    else if i < |vars| && vars[i].name == s then [i]
    else [i] + AsWrittenProbesFrom(vars, s, i + 1)
  }

  /** Finding: when `s` is absent the as-written loop reads `var_names[var_names.size()]`, one
      element past the end, before it can reach its "set: undefined name" error. */
  lemma {:induction false} AsWrittenSetValueOverruns(vars: seq<Variable>, s: string, i: nat)
    requires i <= |vars|
    requires forall j :: i <= j < |vars| ==> vars[j].name != s
    ensures |vars| in AsWrittenProbesFrom(vars, s, i)
    decreases |vars| - i
  {
    if i < |vars| {
      assert vars[i].name != s;
      AsWrittenSetValueOverruns(vars, s, i + 1);
      assert AsWrittenProbesFrom(vars, s, i) == [i] + AsWrittenProbesFrom(vars, s, i + 1);
    } else {
      assert AsWrittenProbesFrom(vars, s, i) == [i];
    }
  }

  /** When `s` is declared the as-written loop stays in bounds, so the corrected `Assign` (and
      `SymbolTable.SetValue`) agrees with the source on every call the source can make without
      overrunning. */
  lemma {:induction false} AsWrittenSetValueInBounds(vars: seq<Variable>, s: string, i: nat)
    requires i <= |vars|
    requires exists j :: i <= j < |vars| && vars[j].name == s
    ensures forall p :: p in AsWrittenProbesFrom(vars, s, i) ==> p < |vars|
    decreases |vars| - i
  {
    if vars[i].name != s {
      AsWrittenSetValueInBounds(vars, s, i + 1);
    }
  }

  /** `vector<Variable> var_names`, updated in place. */
  class SymbolTable {
    var vars: seq<Variable>

    constructor (initial: seq<Variable>)
      ensures vars == initial
    {
      vars := initial;
    }

    /** `is_declared(s)` */
    method IsDeclared(s: string) returns (b: bool)
      ensures b == Declared(vars, s)
    {
      var i := 0;
      while i < |vars|
        invariant 0 <= i <= |vars|
        invariant forall j :: 0 <= j < i ==> vars[j].name != s
      {
        if vars[i].name == s {
          return true;
        }
        i := i + 1;
      }
      return false;
    }

    /** `get_value(s)` */
    method GetValue(s: string) returns (r: Result<real>)
      ensures r == Lookup(vars, s)
    {
      var i := 0;
      while i < |vars|
        invariant 0 <= i <= |vars|
        invariant forall j :: 0 <= j < i ==> vars[j].name != s
      {
        if vars[i].name == s {
          FirstNamedIsUnique(vars, s, i, FirstIndex(vars, s).value);
          return Ok(vars[i].value);
        }
        i := i + 1;
      }
      return Err(GetUndefined(s));
    }

    /** `set_value(s, d)`, with the loop bound corrected to `i < var_names.size()`. */
    method SetValue(s: string, d: real) returns (r: Result<()>)
      modifies this
      ensures r.Ok? <==> Declared(old(vars), s)
      ensures r.Ok? ==> vars == Assign(old(vars), s, d).value
      ensures r.Err? ==> r.error == SetUndefined(s) && vars == old(vars)
    {
      var i := 0;
      while i < |vars|
        invariant 0 <= i <= |vars|
        invariant forall j :: 0 <= j < i ==> vars[j].name != s
      {
        if vars[i].name == s {
          FirstNamedIsUnique(vars, s, i, FirstIndex(vars, s).value);
          vars := vars[i := Variable(s, d)];
          return Ok(());
        }
        i := i + 1;
      }
      return Err(SetUndefined(s));
    }

    /** `var_names.push_back(Variable(name, d))` */
    method Push(name: string, d: real)
      modifies this
      ensures vars == Define(old(vars), name, d)
    {
      vars := vars + [Variable(name, d)];
    }
  }
}
