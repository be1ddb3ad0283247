/** Symbol names, and that they can be read back. */
module Names {
  import opened Characters
  import opened Source

  // ----- decimal numbers -----

  function DigitChar(d: nat): (c: char)
    requires d < 10
    ensures IsDigit(c)
  {
    '0' + d as char
  }

  function DigitOf(c: char): (d: nat)
    requires IsDigit(c)
    ensures d < 10
  {
    (c - '0') as nat
  }

  function Decimal(n: nat): (s: string)
    ensures s != [] && forall i :: 0 <= i < |s| ==> IsDigit(s[i])
  {
    if n < 10 then [DigitChar(n)] else Decimal(n / 10) + [DigitChar(n % 10)]
  }

  /** The number the digits at the front of s continue acc with, and the rest. */
  function Digits(acc: nat, s: string): (nat, string)
    decreases |s|
  {
    if s != [] && IsDigit(s[0]) then Digits(10 * acc + DigitOf(s[0]), s[1..]) else (acc, s)
  }

  lemma {:induction false} ReadDecimal(n: nat, s: string)
    ensures Digits(0, Decimal(n) + s) == Digits(n, s)
    decreases n
  {
    var last := [DigitChar(n % 10)];
    assert (last + s)[1..] == s;
    if n >= 10 {
      ReadDecimal(n / 10, last + s);
      assert Decimal(n) + s == Decimal(n / 10) + (last + s);
    } else {
      assert Decimal(n) == last;
    }
  }

  // ----- what has a symbol -----

  /** A variable or procedure by the names that lead to it, the module's first;
      or a type-bound procedure by the scope it is declared in, the number of its
      receiver type, and its name. */
  datatype Symbol = Plain(path: seq<string>) | Bound(path: seq<string>, typeId: nat, name: string)

  /** An identifier starts with a letter. */
  predicate IsName(s: string) { s != [] && IsHead(s[0]) }

  predicate Valid(x: Symbol) {
    && (forall i :: 0 <= i < |x.path| ==> IsName(x.path[i]))
    && (x.Bound? ==> IsName(x.name))
  }

  // ----- mangling -----

  function Components(path: seq<string>): string {
    if path == [] then [] else Decimal(|path[0]|) + path[0] + Components(path[1..])
  }

  function Mangled(x: Symbol): string {
    match x
    case Plain(path) => "_t" + Components(path)
    case Bound(path, id, name) => "_t" + Components(path) + "T" + Decimal(id) + name
  }

  /** A declaration as mangleName sees it: names inside out, like a stack. */
  method MangleName(x: Symbol) returns (s: string)
    ensures s == Mangled(x)
  {
    s := "_t";
    var parts: seq<string> := Reverse(x.path);
    ghost var done: seq<string> := [];
    while parts != []
      invariant done + Reverse(parts) == x.path && s == "_t" + Components(done)
      decreases |parts|
    {
      var name := parts[|parts| - 1];
      Popped(done, parts);
      done := done + [name];
      parts := parts[..|parts| - 1];
      s := s + Decimal(|name|) + name;
    }
    assert done == x.path;
    if x.Bound? {
      s := s + "T" + Decimal(x.typeId) + x.name;
    }
  }

  function Reverse<T>(s: seq<T>): (r: seq<T>)
    ensures |r| == |s| && forall i :: 0 <= i < |s| ==> r[i] == s[|s| - 1 - i]
  {
    seq(|s|, i requires 0 <= i < |s| => s[|s| - 1 - i])
  }

  lemma Popped(done: seq<string>, parts: seq<string>)
    requires parts != []
    ensures var n := |parts| - 1;
            && done + [parts[n]] + Reverse(parts[..n]) == done + Reverse(parts)
            && "_t" + Components(done + [parts[n]]) == "_t" + Components(done) + Decimal(|parts[n]|) + parts[n]
  {
    var n := |parts| - 1;
    assert Reverse(parts) == [parts[n]] + Reverse(parts[..n]);
    ComponentsSnoc(done, parts[n]);
  }

  lemma {:induction false} ComponentsSnoc(path: seq<string>, name: string)
    ensures Components(path + [name]) == Components(path) + Decimal(|name|) + name
  {
    if path == [] {
      assert [name][1..] == [];
    } else {
      ComponentsSnoc(path[1..], name);
      assert (path + [name])[1..] == path[1..] + [name];
    }
  }

  // ----- reading names back -----

  /** The components at the front of s and what follows them. */
  function ReadComponents(s: string): (seq<string>, string)
    decreases |s|
  {
    if s == [] || !IsDigit(s[0]) then ([], s)
    else
      var (n, rest) := Digits(0, s);
      DigitsShorten(0, s);
      if n > |rest| then ([], s)
      else
        var (path, end) := ReadComponents(rest[n..]);
        ([rest[..n]] + path, end)
  }

  lemma {:induction false} DigitsShorten(acc: nat, s: string)
    ensures |Digits(acc, s).1| <= |s|
    ensures s != [] && IsDigit(s[0]) ==> |Digits(acc, s).1| < |s|
    decreases |s|
  {
    if s != [] && IsDigit(s[0]) { DigitsShorten(10 * acc + DigitOf(s[0]), s[1..]); }
  }

  function Unmangled(s: string): Option<Symbol> {
    if |s| < 2 || s[0] != '_' || s[1] != 't' then None
    else
      var (path, rest) := ReadComponents(s[2..]);
      if rest == [] then Some(Plain(path))
      else if rest[0] != 'T' then None
      else
        var (id, name) := Digits(0, rest[1..]);
        Some(Bound(path, id, name))
  }

  lemma {:induction false} ReadBackComponents(path: seq<string>, rest: string)
    requires forall i :: 0 <= i < |path| ==> IsName(path[i])
    requires rest == [] || !IsDigit(rest[0])
    ensures ReadComponents(Components(path) + rest) == (path, rest)
    decreases |path|
  {
    if path == [] {
      assert Components(path) + rest == rest;
    } else {
      ReadBackComponents(path[1..], rest);
      ReadBackOne(path[0], Components(path[1..]) + rest);
      Cat4(Decimal(|path[0]|), path[0], Components(path[1..]), rest);
      FirstAndRest(path);
    }
  }

  lemma FirstAndRest(path: seq<string>)
    requires path != []
    ensures Components(path) == Decimal(|path[0]|) + path[0] + Components(path[1..]) && [path[0]] + path[1..] == path
  {
  }

  lemma Cat4(a: string, b: string, c: string, d: string)
    ensures a + b + c + d == a + (b + (c + d))
  {
  }

  lemma ReadBackOne(name: string, tail: string)
    requires IsName(name)
    ensures ReadComponents(Decimal(|name|) + (name + tail)) == ([name] + ReadComponents(tail).0, ReadComponents(tail).1)
  {
    var s, rest := Decimal(|name|) + (name + tail), name + tail;
    assert s[0] == Decimal(|name|)[0];
    ReadDecimal(|name|, rest);
    assert rest[0] == name[0];
    assert Digits(0, s) == (|name|, rest);
    assert rest[..|name|] == name && rest[|name|..] == tail;
  }

  /** Mangled names can be decoded. */
  lemma MangledDecodes(x: Symbol)
    requires Valid(x)
    ensures Unmangled(Mangled(x)) == Some(x)
  {
    if x.Plain? {
      Front(Components(x.path));
      ReadBackComponents(x.path, []);
    } else {
      var rest := "T" + Decimal(x.typeId) + x.name;
      Behind(Components(x.path), Decimal(x.typeId), x.name);
      ReadBackComponents(x.path, rest);
      ReadBackName(x.typeId, x.name);
    }
  }

  lemma Front(path: string)
    ensures ("_t" + path)[2..] == path + []
  {
  }

  lemma ReadBackName(id: nat, name: string)
    requires IsName(name)
    ensures var rest := "T" + Decimal(id) + name; !IsDigit(rest[0]) && Digits(0, rest[1..]) == (id, name)
  {
    assert ("T" + Decimal(id) + name)[1..] == Decimal(id) + name;
    ReadDecimal(id, name);
  }

  lemma Behind(path: string, id: string, name: string)
    ensures ("_t" + path + "T" + id + name)[2..] == path + ("T" + id + name)
  {
  }

  /** So different declarations have different symbols. */
  lemma MangledInjective(x: Symbol, y: Symbol)
    requires Valid(x) && Valid(y)
    ensures Mangled(x) == Mangled(y) <==> x == y
  {
    MangledDecodes(x);
    MangledDecodes(y);
  }

  // ----- type numbers -----

  /** The numbers are 0 .. |ids| - 1, each for one type. */
  ghost predicate Numbering(ids: map<nat, nat>) {
    && (forall t :: t in ids ==> ids[t] < |ids|)
    && (forall t, u :: t in ids && u in ids && ids[t] == ids[u] ==> t == u)
  }

  /** The symbol of a type-bound procedure: scope, receiver type and name. */
  function MethodSymbol(ids: map<nat, nat>, path: seq<string>, t: nat, name: string): Symbol
    requires t in ids
  {
    Bound(path, ids[t], name)
  }

  /** Type-bound procedures have the same symbol exactly if they are declared in the
      same scope for the same type under the same name, however many types got
      numbers between one use and the other; and none that of anything else. */
  lemma MethodNamesDistinct(ids: map<nat, nat>, ids1: map<nat, nat>, path: seq<string>, t: nat, name: string,
                            path1: seq<string>, t1: nat, name1: string, plain: seq<string>)
    requires Numbering(ids1) && (forall u :: u in ids ==> u in ids1 && ids1[u] == ids[u]) && t in ids && t1 in ids1
    requires Valid(Bound(path, 0, name)) && Valid(Bound(path1, 0, name1)) && Valid(Plain(plain))
    ensures Mangled(MethodSymbol(ids, path, t, name)) == Mangled(MethodSymbol(ids1, path1, t1, name1))
            <==> path == path1 && t == t1 && name == name1
    ensures Mangled(MethodSymbol(ids, path, t, name)) != Mangled(Plain(plain))
  {
    MangledInjective(MethodSymbol(ids, path, t, name), MethodSymbol(ids1, path1, t1, name1));
    MangledInjective(MethodSymbol(ids, path, t, name), Plain(plain));
  }

  /** getTypeId: a number per type, given on first use. */
  class TypeIds {
    var ids: map<nat, nat>

    ghost predicate Valid()
      reads this
    {
      Numbering(ids)
    }

    constructor ()
      ensures Valid() && ids == map[]
    {
      ids := map[];
    }

    method GetTypeId(t: nat) returns (id: nat)
      requires Valid()
      modifies this
      ensures Valid() && t in ids && id == ids[t]
      ensures ids == if t in old(ids) then old(ids) else old(ids)[t := |old(ids)|]
      ensures forall u :: u in old(ids) ==> u in ids && ids[u] == old(ids)[u]
    {
      if t in ids { return ids[t]; }
      id := |ids|;
      ids := ids[t := id];
    }

    /** mangleName on a type-bound procedure: the receiver type gets a number if
        it has none, no other number changes. */
    method MangleMethod(path: seq<string>, t: nat, name: string) returns (s: string)
      requires Valid()
      modifies this
      ensures Valid() && t in ids && s == Mangled(MethodSymbol(ids, path, t, name))
      ensures forall u :: u in old(ids) ==> u in ids && ids[u] == old(ids)[u]
    {
      var id := GetTypeId(t);
      s := MangleName(Bound(path, id, name));
    }
  }
}
