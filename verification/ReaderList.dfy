/** The multi-string in which PC/SC returns its reader names. */
module ReaderList {
  import opened Results
  import opened Words

  type Name = seq<Byte>

  predicate IsName(name: Name) {
    name != [] && forall i :: 0 <= i < |name| ==> name[i] != 0
  }

  predicate AreNames(names: seq<Name>) {
    forall i :: 0 <= i < |names| ==> IsName(names[i])
  }

  /** Every name followed by one NUL. */
  function Flat(names: seq<Name>): seq<Byte> {
    if names == [] then [] else names[0] + [0] + Flat(names[1..])
  }

  /** The buffer begins with exactly these names: what follows is the end or another NUL. */
  predicate BeginsWith(buffer: seq<Byte>, names: seq<Name>) {
    var n := |Flat(names)|;
    AreNames(names) && n <= |buffer| && buffer[..n] == Flat(names) && (n < |buffer| ==> buffer[n] == 0)
  }

  /** The buffer is a list of names, each with its NUL, then any number of further NULs. */
  predicate IsList(buffer: seq<Byte>, names: seq<Name>) {
    BeginsWith(buffer, names) && forall i :: |Flat(names)| <= i < |buffer| ==> buffer[i] == 0
  }

  lemma {:induction false} FlatAppend(names: seq<Name>, name: Name)
    ensures Flat(names + [name]) == Flat(names) + name + [0]
  {
    if names == [] {
      assert [name][1..] == [];
      assert [] + [name] == [name];
    } else {
      FlatAppend(names[1..], name);
      assert (names + [name])[1..] == names[1..] + [name];
    }
  }

  lemma FirstNamesAgree(a: Name, x: seq<Byte>, b: Name, y: seq<Byte>, buffer: seq<Byte>)
    requires IsName(a) && IsName(b) && a + [0] + x <= buffer && b + [0] + y <= buffer
    ensures a == b
  {
    assert (a + [0] + x)[|a|] == 0 && (b + [0] + y)[|b|] == 0;
    assert buffer[|a|] == 0 && buffer[|b|] == 0;
    assert forall i :: 0 <= i < |a| ==> buffer[i] == a[i] != 0;
    assert forall i :: 0 <= i < |b| ==> buffer[i] == b[i] != 0;
    assert a == buffer[..|a|] && b == buffer[..|b|];
  }

  lemma Tail(buffer: seq<Byte>, names: seq<Name>)
    requires BeginsWith(buffer, names) && names != []
    ensures |names[0]| < |buffer| && BeginsWith(buffer[|names[0]| + 1..], names[1..])
    ensures names[0] + [0] + Flat(names[1..]) <= buffer
    ensures buffer[0] != 0
  {
    var k, rest := |names[0]| + 1, buffer[|names[0]| + 1..];
    assert names[0] + [0] + Flat(names[1..]) == Flat(names);
    assert buffer[0] == Flat(names)[0] == names[0][0];
    forall i | 0 <= i < |Flat(names[1..])| ensures rest[i] == Flat(names[1..])[i] {
      assert buffer[k + i] == Flat(names)[k + i];
    }
    assert rest[..|Flat(names[1..])|] == Flat(names[1..]);
  }

  /** Theorem: a buffer decomposes into names in at most one way. */
  lemma {:induction false} DecompositionIsUnique(buffer: seq<Byte>, x: seq<Name>, y: seq<Name>)
    requires BeginsWith(buffer, x) && BeginsWith(buffer, y)
    ensures x == y
    decreases |x|
  {
    if x != [] && y != [] {
      Tail(buffer, x);
      Tail(buffer, y);
      FirstNamesAgree(x[0], Flat(x[1..]), y[0], Flat(y[1..]), buffer);
      DecompositionIsUnique(buffer[|x[0]| + 1..], x[1..], y[1..]);
      assert x == [x[0]] + x[1..] && y == [y[0]] + y[1..];
    } else if x != [] {
      Tail(buffer, x);
    } else if y != [] {
      Tail(buffer, y);
    }
  }

  method Find(buffer: seq<Byte>, from: nat) returns (end: nat)
    requires from <= |buffer|
    ensures from <= end <= |buffer| && (end < |buffer| ==> buffer[end] == 0)
    ensures forall i :: from <= i < end ==> buffer[i] != 0
  {
    end := from;
    while end < |buffer| && buffer[end] != 0
      invariant from <= end <= |buffer|
      invariant forall i :: from <= i < end ==> buffer[i] != 0
    {
      end := end + 1;
    }
  }

  lemma FirstIsThere(buffer: seq<Byte>, name: Name, rest: seq<Byte>)
    requires name + [0] + rest <= buffer
    ensures |name| < |buffer| && buffer[..|name|] == name && buffer[|name|] == 0
  {
    var all := name + [0] + rest;
    assert all[..|name|] == name && all[|name|] == 0;
    assert buffer[..|all|] == all;
  }

  /** Accepts exactly the lists, and returns the names they are made of. */
  method Readers(buffer: seq<Byte>) returns (r: Result<seq<Name>>)
    ensures r.Ok? ==> IsList(buffer, r.value)
    ensures r.Ok? <==> exists names :: IsList(buffer, names)
    ensures r.Err? ==> r.error == Error(MalformedResponse)
    ensures r.Ok? ==> forall name <- r.value :: name != [] && 0 !in name
    ensures r.Ok? && r.value != [] ==>
              |r.value[0]| < |buffer| && buffer[..|r.value[0]|] == r.value[0] && buffer[|r.value[0]|] == 0
  {
    if |buffer| == 0 {
      assert IsList(buffer, []);
      return Ok([]);
    }
    if buffer[|buffer| - 1] != 0 {
      forall names | IsList(buffer, names) ensures false {
        EndsInNul(buffer, names);
      }
      return Err(Error(MalformedResponse));
    }
    var result: seq<Name> := [];
    var offset := 0;
    while offset < |buffer| && buffer[offset] != 0
      invariant offset <= |buffer| && buffer[..offset] == Flat(result) && AreNames(result)
    {
      var end := Find(buffer, offset);
      if end == |buffer| {
        // No name runs past the final NUL.
        assert false;
      }
      var name := buffer[offset..end];
      FlatAppend(result, name);
      assert buffer[..end + 1] == buffer[..offset] + name + [0];
      result := result + [name];
      offset := offset + |name| + 1;
    }
    assert BeginsWith(buffer, result);
    var allNul := forall i :: offset <= i < |buffer| ==> buffer[i] == 0;
    if !allNul {
      forall names | IsList(buffer, names) ensures false {
        DecompositionIsUnique(buffer, result, names);
      }
      return Err(Error(MalformedResponse));
    }
    assert IsList(buffer, result);
    if result != [] {
      Tail(buffer, result);
      FirstIsThere(buffer, result[0], Flat(result[1..]));
    }
    r := Ok(result);
  }

  lemma EndsInNul(buffer: seq<Byte>, names: seq<Name>)
    requires buffer != [] && IsList(buffer, names)
    ensures buffer[|buffer| - 1] == 0
  {
    if |Flat(names)| == |buffer| {
      var last := names[|names| - 1];
      FlatAppend(names[..|names| - 1], last);
      assert names[..|names| - 1] + [last] == names;
      assert buffer == Flat(names);
    }
  }

  /** Theorem: names laid out with any number of closing NULs are read back as they were. */
  lemma ListsReadBack(names: seq<Name>, buffer: seq<Byte>, closing: nat, found: seq<Name>)
    requires AreNames(names) && buffer == Flat(names) + seq(closing, _ => 0)
    ensures IsList(buffer, found) <==> found == names
  {
    var n := |Flat(names)|;
    assert buffer[..n] == Flat(names);
    assert IsList(buffer, names);
    if IsList(buffer, found) {
      DecompositionIsUnique(buffer, names, found);
    }
  }
}
