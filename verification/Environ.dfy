/** The environment of the inferior: a vector of strings "VAR=VALUE" that stands for a map. */
module Environ {
  import opened Common

  /** The value that an entry gives to `name`, if it is one for that name. */
  function ValueIn(entry: string, name: string): (r: Option<string>) {
    if name <= entry && |name| < |entry| && entry[|name|] == '=' then Some(entry[|name| + 1..]) else None
  }

  function EntryFor(name: string, value: string): (r: string) { name + "=" + value }

  predicate NameOk(name: string) { '=' !in name }

  /** What an entry begins with contains the '=' if it goes beyond it. */
  lemma {:induction false} Beyond(entry: string, at: nat, name: string)
    requires at < |entry| && entry[at] == '=' && name <= entry
    ensures at < |name| ==> !NameOk(name)
  {
    if at < |name| { assert name[at] == '='; }
  }

  /** An entry that gives a value to two names free of '=' gives it to one. */
  lemma {:induction false} OneName(entry: string, a: string, b: string)
    requires NameOk(a) && NameOk(b) && ValueIn(entry, a).Some? && ValueIn(entry, b).Some?
    ensures a == b
  {
    Beyond(entry, |a|, b);
    Beyond(entry, |b|, a);
    assert a == entry[..|a|] && b == entry[..|b|];
  }

  /** Entries for different names are told apart, also if one name begins with the other, provided names are free of
      '='. */
  lemma {:induction false} EntryValue(name: string, value: string, other: string)
    requires NameOk(name) && NameOk(other)
    ensures ValueIn(EntryFor(name, value), other) == if other == name then Some(value) else None
  {
    var e := EntryFor(name, value);
    assert e[..|name|] == name && e[|name| + 1..] == value;
    if ValueIn(e, other).Some? { OneName(e, name, other); }
  }

  // ---------------------------------------------------------------------------
  // Vectors of entries

  /** Where the first entry for `name` is; the length if there is none. */
  function Find(es: seq<string>, name: string): (i: nat)
    ensures i <= |es| && (i < |es| ==> ValueIn(es[i], name).Some?)
    ensures forall k :: 0 <= k < i ==> ValueIn(es[k], name) == None
  {
    if es == [] || ValueIn(es[0], name).Some? then 0 else 1 + Find(es[1..], name)
  }

  /** What the vector says about `name`. */
  function Lookup(es: seq<string>, name: string): (r: Option<string>) {
    if Find(es, name) < |es| then ValueIn(es[Find(es, name)], name) else None
  }

  function Set(es: seq<string>, name: string, value: string): (r: seq<string>) {
    if Find(es, name) < |es| then es[Find(es, name) := EntryFor(name, value)] else es + [EntryFor(name, value)]
  }

  function Unset(es: seq<string>, name: string): (r: seq<string>) {
    var i := Find(es, name);
    if i < |es| then es[..i] + es[i + 1..] else es
  }

  /** At most one entry for each name, and no entry without one. */
  predicate WellFormed(es: seq<string>) {
    (forall i, j :: 0 <= i < j < |es| ==> !SameName(es[i], es[j])) && forall i :: 0 <= i < |es| ==> '=' in es[i]
  }

  /** The part of an entry before its first '='. */
  function NameOf(entry: string): (name: string)
    ensures NameOk(name) && name <= entry
    ensures '=' in entry ==> ValueIn(entry, name).Some?
  {
    if entry == "" || entry[0] == '=' then "" else [entry[0]] + NameOf(entry[1..])
  }

  predicate SameName(a: string, b: string) { NameOf(a) == NameOf(b) }

  lemma {:induction false} NameIs(entry: string, name: string)
    requires '=' in entry && NameOk(name)
    ensures NameOf(entry) == name <==> ValueIn(entry, name).Some?
  {
    if ValueIn(entry, name).Some? { OneName(entry, name, NameOf(entry)); }
  }

  /** In a well-formed vector the first entry for a name is the only one. */
  lemma {:induction false} FindOnly(es: seq<string>, name: string, k: nat)
    requires WellFormed(es) && NameOk(name) && k < |es| && ValueIn(es[k], name).Some?
    ensures Find(es, name) == k
  {
    var i := Find(es, name);
    NameIs(es[k], name);
    NameIs(es[i], name);
    if i < k { assert SameName(es[i], es[k]); }
  }

  lemma {:induction false} FindNone(es: seq<string>, name: string)
    requires forall k :: 0 <= k < |es| ==> ValueIn(es[k], name) == None
    ensures Find(es, name) == |es| && Lookup(es, name) == None
  {
  }

  lemma {:induction false} SetWellFormed(es: seq<string>, name: string, value: string)
    requires WellFormed(es) && NameOk(name)
    ensures WellFormed(Set(es, name, value))
  {
    var i := Find(es, name);
    var e := EntryFor(name, value);
    EntryValue(name, value, name);
    assert e[|name|] == '=';
    NameIs(e, name);
    forall k | 0 <= k < |es| && k != i ensures NameOf(es[k]) != name {
      NameIs(es[k], name);
      if ValueIn(es[k], name).Some? { FindOnly(es, name, k); }
    }
  }

  /** Setting a name gives it the value and leaves the others alone. */
  lemma {:induction false} SetLookup(es: seq<string>, name: string, value: string, other: string)
    requires WellFormed(es) && NameOk(name) && NameOk(other)
    ensures Lookup(Set(es, name, value), other) == if other == name then Some(value) else Lookup(es, other)
  {
    var s := Set(es, name, value);
    SetWellFormed(es, name, value);
    EntryValue(name, value, other);
    var i := Find(es, name);
    if other == name {
      FindOnly(s, name, i);
    } else if Find(es, other) < |es| {
      var k := Find(es, other);
      if k == i { OneName(es[i], name, other); }
      assert s[k] == es[k];
      FindOnly(s, other, k);
    } else {
      FindNone(s, other);
    }
  }

  lemma {:induction false} UnsetWellFormed(es: seq<string>, name: string)
    requires WellFormed(es)
    ensures WellFormed(Unset(es, name))
  {
    var i := Find(es, name);
    var s := Unset(es, name);
    if i < |es| {
      forall a, b | 0 <= a < b < |s| ensures !SameName(s[a], s[b]) {
        assert s[a] == es[if a < i then a else a + 1] && s[b] == es[if b < i then b else b + 1];
      }
      forall a | 0 <= a < |s| ensures '=' in s[a] { assert s[a] == es[if a < i then a else a + 1]; }
    }
  }

  /** Unsetting a name removes it and leaves the others alone. */
  lemma {:induction false} UnsetLookup(es: seq<string>, name: string, other: string)
    requires WellFormed(es) && NameOk(name) && NameOk(other)
    ensures Lookup(Unset(es, name), other) == if other == name then None else Lookup(es, other)
  {
    var i, k := Find(es, name), Find(es, other);
    var s := Unset(es, name);
    UnsetWellFormed(es, name);
    if other != name && k < |es| {
      if k == i { OneName(es[i], name, other); }
      var k' := if k < i then k else k - 1;
      assert s[k'] == es[k];
      FindOnly(s, other, k');
    } else {
      forall a | 0 <= a < |s| ensures ValueIn(s[a], other) == None {
        var a' := if a < i then a else a + 1;
        assert s[a] == es[a'];
        if ValueIn(es[a'], other).Some? { FindOnly(es, other, a'); }
      }
      FindNone(s, other);
    }
  }

  // ---------------------------------------------------------------------------
  // Sequences of operations

  datatype Change = SetTo(name: string, value: string) | Remove(name: string)

  function Apply(es: seq<string>, cs: seq<Change>): (r: seq<string>)
    decreases |cs|
  {
    if cs == [] then es
    else Apply(if cs[0].SetTo? then Set(es, cs[0].name, cs[0].value) else Unset(es, cs[0].name), cs[1..])
  }

  /** The map that the changes make. */
  function Meant(m: map<string, string>, cs: seq<Change>): (r: map<string, string>)
    decreases |cs|
  {
    if cs == [] then m
    else Meant(if cs[0].SetTo? then m[cs[0].name := cs[0].value] else m - {cs[0].name}, cs[1..])
  }

  ghost predicate Represents(es: seq<string>, m: map<string, string>) {
    WellFormed(es) && forall name :: NameOk(name) ==> Lookup(es, name) == if name in m then Some(m[name]) else None
  }

  /** The vector stands for the map that was meant, after any changes of names free of '='. */
  lemma {:induction false} ChangesRefine(es: seq<string>, m: map<string, string>, cs: seq<Change>)
    requires Represents(es, m) && forall i :: 0 <= i < |cs| ==> NameOk(cs[i].name)
    ensures Represents(Apply(es, cs), Meant(m, cs))
    decreases |cs|
  {
    if cs != [] {
      var c := cs[0];
      var es' := if c.SetTo? then Set(es, c.name, c.value) else Unset(es, c.name);
      var m' := if c.SetTo? then m[c.name := c.value] else m - {c.name};
      if c.SetTo? { SetWellFormed(es, c.name, c.value); } else { UnsetWellFormed(es, c.name); }
      forall name | NameOk(name) ensures Lookup(es', name) == if name in m' then Some(m'[name]) else None {
        if c.SetTo? { SetLookup(es, c.name, c.value, name); } else { UnsetLookup(es, c.name, name); }
      }
      ChangesRefine(es', m', cs[1..]);
    }
  }

  // ---------------------------------------------------------------------------
  // The vector as it is kept

  /** `None` is the null pointer that ends the vector. */
  class Env {
    var slots: nat
    var vector: array<Option<string>>
    ghost var count: nat

    /** The entries come first, then the terminator, within slots + 1 slots. */
    ghost predicate Valid()
      reads this, vector
    {
      && vector.Length == slots + 1 && count <= slots && vector[count] == None
      && forall i :: 0 <= i < count ==> vector[i].Some?
    }

    ghost function Entries(): (es: seq<string>)
      requires Valid()
      reads this, vector
      ensures |es| == count && forall i :: 0 <= i < count ==> vector[i] == Some(es[i])
    {
      Values(vector[..count])
    }

    constructor ()
      ensures Valid() && Entries() == [] && fresh(vector)
    {
      slots, count := 10, 0;
      vector := new Option<string>[11](_ => None);
    }

    /** The loop that looks for the entry of `name`, or the end. */
    method FindEntry(name: string) returns (i: nat)
      requires Valid()
      ensures i == Find(Entries(), name)
    {
      i := 0;
      var es := Entries();
      while vector[i] != None && ValueIn(vector[i].value, name) == None
        invariant i <= count && forall k :: 0 <= k < i ==> ValueIn(es[k], name) == None
        decreases count - i
      {
        i := i + 1;
      }
      FirstIs(es, name, i);
    }

    method GetInEnviron(name: string) returns (value: Option<string>)
      requires Valid()
      ensures value == Lookup(Entries(), name)
    {
      var i := FindEntry(name);
      value := if vector[i] == None then None else ValueIn(vector[i].value, name);
    }

    method SetInEnviron(name: string, value: string)
      requires Valid()
      modifies this, vector
      ensures Valid() && Entries() == Set(old(Entries()), name, value)
      ensures vector == old(vector) || fresh(vector)
    {
      var i := FindEntry(name);
      if vector[i] == None {
        if i == slots {
          Grow();
        }
        Append(i, EntryFor(name, value));
      } else {
        Replace(i, EntryFor(name, value));
      }
    }

    /** A new entry, and the end of the vector one slot later. */
    method Append(i: nat, entry: string)
      requires Valid() && i == count < slots
      modifies this`count, vector
      ensures Valid() && Entries() == old(Entries()) + [entry]
    {
      vector[i + 1] := None;
      vector[i] := Some(entry);
      count := count + 1;
      assert vector[..count] == old(vector[..count]) + [Some(entry)];
      assert Values(vector[..count]) == Values(old(vector[..count])) + [entry];
    }

    method Replace(i: nat, entry: string)
      requires Valid() && i < count
      modifies vector
      ensures Valid() && Entries() == old(Entries())[i := entry]
    {
      vector[i] := Some(entry);
      assert vector[..count] == old(vector[..count])[i := Some(entry)];
    }

    /** xrealloc of the vector, with ten slots more. */
    method Grow()
      requires Valid()
      modifies this
      ensures Valid() && slots == old(slots) + 10 && count == old(count) && fresh(vector)
      ensures Entries() == old(Entries())
    {
      var bigger := new Option<string>[slots + 11](_ => None);
      forall k | 0 <= k < slots + 1 { bigger[k] := vector[k]; }
      slots := slots + 10;
      vector := bigger;
      assert Entries() == old(Entries());
    }

    method UnsetInEnviron(name: string)
      requires Valid()
      modifies this, vector
      ensures Valid() && Entries() == Unset(old(Entries()), name) && vector == old(vector) && slots == old(slots)
    {
      var i := FindEntry(name);
      if vector[i] != None {
        RemoveSlot(i);
      }
    }

    /** Move what follows slot `i` down, and end the vector one slot earlier. */
    method RemoveSlot(i: nat)
      requires Valid() && i < count
      modifies this`count, vector
      ensures Valid() && count == old(count) - 1
      ensures Entries() == old(Entries())[..i] + old(Entries())[i + 1..]
    {
      ghost var was := vector[..];
      MoveUp(i);
      vector[slots - 1] := None;
      count := count - 1;
      Moved(was, vector[..], i, count);
      ValuesWithout(was[..count + 1], i);
      assert was[..count + 1][..i] == was[..i] && was[..count + 1][i + 1..] == was[i + 1..count + 1];
    }

    /** bcopy of what follows slot `i`, one slot down. */
    method MoveUp(i: nat)
      requires vector.Length == slots + 1 && i < slots
      modifies vector
      ensures vector[..slots] == old(vector[..i]) + old(vector[i + 1..])
    {
      forall k | i <= k < slots { vector[k] := vector[k + 1]; }
    }
  }

  function Values(s: seq<Option<string>>): (r: seq<string>)
    requires forall i :: 0 <= i < |s| ==> s[i].Some?
    ensures |r| == |s| && forall i :: 0 <= i < |s| ==> s[i] == Some(r[i])
  {
    seq(|s|, i requires 0 <= i < |s| => s[i].value)
  }

  lemma {:induction false} ValuesWithout(s: seq<Option<string>>, i: nat)
    requires i < |s| && forall k :: 0 <= k < |s| ==> s[k].Some?
    ensures Values(s[..i] + s[i + 1..]) == Values(s)[..i] + Values(s)[i + 1..]
  {
  }

  /** What the first `n` slots hold when slot `i` was taken out. */
  lemma {:induction false} Moved(was: seq<Option<string>>, now: seq<Option<string>>, i: nat, n: nat)
    requires i <= n && n + 2 <= |was| == |now| && now[..|was| - 2] == (was[..i] + was[i + 1..])[..|was| - 2]
             && now[|was| - 2] == None
    ensures now[..n] == was[..i] + was[i + 1..n + 1]
  {
    assert now[..n] == (was[..i] + was[i + 1..])[..n];
  }

  lemma {:induction false} FirstIs(es: seq<string>, name: string, i: nat)
    requires i <= |es| && (i < |es| ==> ValueIn(es[i], name).Some?)
    requires forall k :: 0 <= k < i ==> ValueIn(es[k], name) == None
    ensures Find(es, name) == i
  {
  }
}
