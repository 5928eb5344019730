/**
 internal/serviceaccount/syncer.go, the list of imagePullSecrets references. A reference is
 its name. The managed name is to be there once, where it first was, or not at all; every
 other reference stays.
 */
module References {

  /** The references of others, in order. */
  function Foreign(refs: seq<string>, name: string): seq<string> {
    if refs == [] then []
    else if refs[0] == name then Foreign(refs[1..], name)
    else [refs[0]] + Foreign(refs[1..], name)
  }

  /** Where the name first occurs, or the end. */
  function First(refs: seq<string>, name: string): (i: nat)
    ensures i <= |refs|
    ensures name in refs <==> i < |refs|
    ensures i < |refs| ==> refs[i] == name
    ensures forall j :: 0 <= j < i ==> refs[j] != name
  {
    if refs == [] || refs[0] == name then 0 else 1 + First(refs[1..], name)
  }

  /** What the list is to become. */
  function Desired(refs: seq<string>, name: string, wanted: bool): seq<string> {
    if wanted then refs[..First(refs, name)] + [name] + Foreign(refs[First(refs, name)..], name)
    else Foreign(refs, name)
  }

  lemma Regroup(a: seq<string>, b: seq<string>, c: seq<string>)
    ensures a + (b + c) == (a + b) + c
  {
  }

  lemma TailOfConcat(a: seq<string>, b: seq<string>)
    requires a != []
    ensures (a + b)[0] == a[0] && (a + b)[1..] == a[1..] + b
  {
  }

  lemma {:induction false} ForeignOfConcat(a: seq<string>, b: seq<string>, name: string)
    ensures Foreign(a + b, name) == Foreign(a, name) + Foreign(b, name)
  {
    if a == [] {
      assert a + b == b;
    } else {
      TailOfConcat(a, b);
      ForeignOfConcat(a[1..], b, name);
      Regroup([a[0]], Foreign(a[1..], name), Foreign(b, name));
    }
  }

  lemma {:induction false} ForeignOfForeign(refs: seq<string>, name: string)
    requires name !in refs
    ensures Foreign(refs, name) == refs
  {
    if refs != [] {
      ForeignOfForeign(refs[1..], name);
    }
  }

  lemma {:induction false} ForeignHasNoName(refs: seq<string>, name: string)
    ensures name !in Foreign(refs, name)
  {
    if refs != [] {
      ForeignHasNoName(refs[1..], name);
    }
  }

  /** The name occurs once, at `i`. */
  predicate OnceAt(refs: seq<string>, name: string, i: nat) {
    i < |refs| && refs[i] == name && forall j :: 0 <= j < |refs| && j != i ==> refs[j] != name
  }

  /**
   What reconciling a list promises: no reference of others is lost, added or moved among the
   others; the managed name is there exactly once, at its first position, or not at all.
   */
  predicate Promised(result: seq<string>, refs: seq<string>, name: string, wanted: bool) {
    && Foreign(result, name) == Foreign(refs, name)
    && (if wanted then OnceAt(result, name, First(refs, name)) else name !in result)
  }

  lemma DesiredIsPromised(refs: seq<string>, name: string, wanted: bool)
    ensures Promised(Desired(refs, name, wanted), refs, name, wanted)
  {
    ForeignHasNoName(refs, name);
    if wanted {
      PlacedIsPromised(refs, name, First(refs, name));
    } else {
      ForeignOfForeign(Foreign(refs, name), name);
    }
  }

  lemma PlacedIsPromised(refs: seq<string>, name: string, i: nat)
    requires i <= |refs| && forall j :: 0 <= j < i ==> refs[j] != name
    ensures var placed := refs[..i] + [name] + Foreign(refs[i..], name);
            OnceAt(placed, name, i) && Foreign(placed, name) == Foreign(refs, name)
  {
    hide Foreign, OnceAt;
    var head, rest := refs[..i], refs[i..];
    ForeignHasNoName(rest, name);
    BetweenForeign(head, Foreign(rest, name), name);
    assert refs == head + rest;
    ForeignOfConcat(head, rest, name);
    ForeignOfForeign(head, name);
  }

  lemma BetweenForeign(head: seq<string>, tail: seq<string>, name: string)
    requires name !in head && name !in tail
    ensures OnceAt(head + [name] + tail, name, |head|) && Foreign(head + [name] + tail, name) == head + tail
  {
    OnceBetween(head, tail, name);
    ForeignOfForeign(head, name);
    ForeignOfForeign(tail, name);
    ForeignOfOneMore(head, name, name);
    ForeignOfConcat(head + [name], tail, name);
  }

  lemma OnceBetween(head: seq<string>, tail: seq<string>, name: string)
    requires name !in head && name !in tail
    ensures OnceAt(head + [name] + tail, name, |head|)
  {
    hide Foreign;
    var placed := head + [name] + tail;
    forall j | 0 <= j < |placed| && j != |head| ensures placed[j] != name {
      assert placed[j] == if j < |head| then head[j] else tail[j - |head| - 1];
    }
  }

  /** No other list keeps the promise. */
  lemma PromiseIsUnique(result: seq<string>, refs: seq<string>, name: string, wanted: bool)
    requires Promised(result, refs, name, wanted)
    ensures result == Desired(refs, name, wanted)
  {
    DesiredIsPromised(refs, name, wanted);
    if wanted {
      SameForeignSamePlace(result, Desired(refs, name, wanted), name, First(refs, name));
    } else {
      ForeignOfForeign(result, name);
    }
  }

  lemma SameForeignSamePlace(a: seq<string>, b: seq<string>, name: string, i: nat)
    requires OnceAt(a, name, i) && OnceAt(b, name, i) && Foreign(a, name) == Foreign(b, name)
    ensures a == b
  {
    AroundName(a, name, i);
    AroundName(b, name, i);
    assert a[..i] == Foreign(a, name)[..i] == b[..i];
    assert a[i + 1..] == Foreign(a, name)[i..] == b[i + 1..];
    assert a == a[..i] + [name] + a[i + 1..];
    assert b == b[..i] + [name] + b[i + 1..];
  }

  lemma AroundName(a: seq<string>, name: string, i: nat)
    requires OnceAt(a, name, i)
    ensures Foreign(a, name) == a[..i] + a[i + 1..]
  {
    assert a == a[..i] + ([name] + a[i + 1..]);
    ForeignOfConcat(a[..i], [name] + a[i + 1..], name);
    ForeignOfConcat([name], a[i + 1..], name);
    assert Foreign([name], name) == [];
    ForeignOfForeign(a[..i], name);
    ForeignOfForeign(a[i + 1..], name);
  }

  /** Reconciling again changes nothing. */
  lemma DesiredIsStable(refs: seq<string>, name: string, wanted: bool)
    ensures Desired(Desired(refs, name, wanted), name, wanted) == Desired(refs, name, wanted)
  {
    var d := Desired(refs, name, wanted);
    DesiredIsPromised(refs, name, wanted);
    if wanted {
      assert First(d, name) == First(refs, name);
    }
    assert Promised(d, d, name, wanted);
    PromiseIsUnique(d, d, name, wanted);
  }

  lemma ForeignOfOneMore(refs: seq<string>, x: string, name: string)
    ensures Foreign(refs + [x], name) == if x == name then Foreign(refs, name) else Foreign(refs, name) + [x]
  {
    ForeignOfConcat(refs, [x], name);
    assert Foreign([x], name) == if x == name then [] else [x];
  }

  /** `reconcileReferences`. */
  method ReconcileReferences(current: seq<string>, managedName: string, shouldReference: bool) returns (result: seq<string>)
    ensures result == Desired(current, managedName, shouldReference)
    ensures Promised(result, current, managedName, shouldReference)
  {
    DesiredIsPromised(current, managedName, shouldReference);
    hide Foreign, Promised;
    result := [];
    assert Foreign([], managedName) == [] by {
      ForeignOfForeign([], managedName);
    }
    var managedAdded := false;
    var first := First(current, managedName);
    for i := 0 to |current|
      invariant managedAdded <==> shouldReference && first < i
      invariant result == if managedAdded then current[..first] + [managedName] + Foreign(current[first..i], managedName)
                          else Foreign(current[..i], managedName)
    {
      ForeignOfOneMore(current[..i], current[i], managedName);
      assert current[..i + 1] == current[..i] + [current[i]];
      if managedAdded {
        ForeignOfOneMore(current[first..i], current[i], managedName);
        assert current[first..i + 1] == current[first..i] + [current[i]];
      }
      if current[i] != managedName {
        result := result + [current[i]];
      } else if shouldReference && !managedAdded {
        ForeignOfForeign(current[..i], managedName);
        ForeignOfOneMore([], managedName, managedName);
        assert current[first..i + 1] == [] + [managedName];
        result := result + [managedName];
        managedAdded := true;
      }
    }
    assert current[..|current|] == current && current[first..|current|] == current[first..];
    if shouldReference && !managedAdded {
      ForeignOfForeign(current, managedName);
      assert current[first..] == [];
      result := result + [managedName];
    }
  }

  /** `equalReferences`. */
  method EqualReferences(left: seq<string>, right: seq<string>) returns (equal: bool)
    ensures equal <==> left == right
  {
    if |left| != |right| {
      return false;
    }
    for i := 0 to |left|
      invariant left[..i] == right[..i]
    {
      if left[i] != right[i] {
        return false;
      }
    }
    equal := true;
  }
}
