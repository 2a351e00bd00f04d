/** JSON values as the workflow builder handles them. A JavaScript object is an
    insertion-ordered list of fields: assigning an existing key keeps its position,
    assigning a new key appends it, `delete` removes it, and `{...a, ...b}` assigns
    the fields of `b` onto a copy of `a` in `b`'s order. The serialised document of
    a state is such an object, so its key order is part of what is modelled. */
module AslJson {
  import opened Common

  datatype Json =
    | JNull
    | JBool(b: bool)
    | JNum(n: int)
    | JStr(s: string)
    | JArr(items: seq<Json>)
    | JObj(fields: seq<Field>)

  datatype Field = Field(key: string, value: Json)

  type Obj = seq<Field>

  function Keys(o: Obj): (ks: seq<string>)
    ensures |ks| == |o|
    ensures forall i :: 0 <= i < |o| ==> ks[i] == o[i].key
  {
    if o == [] then [] else [o[0].key] + Keys(o[1..])
  }

  /** No key occurs twice, as in every JavaScript object. */
  predicate WellFormed(o: Obj)
  {
    forall i, j :: 0 <= i < j < |o| ==> o[i].key != o[j].key
  }

  /** `o[k]`, with None for a missing key. */
  function Get(o: Obj, k: string): (r: Option<Json>)
    ensures r.None? <==> k !in Keys(o)
    ensures r.Some? ==> Field(k, r.value) in o
  {
    if o == [] then None
    else if o[0].key == k then Some(o[0].value)
    else Get(o[1..], k)
  }

  /** `o[k] = v`: an existing key keeps its position, a new key goes last. */
  function Put(o: Obj, k: string, v: Json): (r: Obj)
    ensures Keys(r) == if k in Keys(o) then Keys(o) else Keys(o) + [k]
  {
    if o == [] then [Field(k, v)]
    else if o[0].key == k then [Field(k, v)] + o[1..]
    else [o[0]] + Put(o[1..], k, v)
  }

  /** After `o[k] = v`, reading `k` gives `v` and every other key reads as before. */
  lemma {:induction false} PutGet(o: Obj, k: string, v: Json, j: string)
    ensures Get(Put(o, k, v), j) == if j == k then Some(v) else Get(o, j)
  {
    if o != [] && o[0].key != k {
      PutGet(o[1..], k, v, j);
    }
  }

  /** The first key of a well-formed object does not occur in the rest, which is
      well-formed too. */
  lemma HeadKeyFresh(o: Obj)
    requires WellFormed(o) && o != []
    ensures o[0].key !in Keys(o[1..]) && WellFormed(o[1..])
  {
    forall i | 0 <= i < |o| - 1 ensures Keys(o[1..])[i] != o[0].key {
      assert o[1..][i] == o[i + 1];
    }
  }

  /** A field whose key the object lacks can go in front. */
  lemma WellFormedCons(f: Field, o: Obj)
    requires WellFormed(o) && f.key !in Keys(o)
    ensures WellFormed([f] + o)
  {
    forall i, j | 0 <= i < j < |o| + 1 ensures ([f] + o)[i].key != ([f] + o)[j].key {
      assert ([f] + o)[j] == o[j - 1];
      if i == 0 {
        assert Keys(o)[j - 1] == o[j - 1].key;
      } else {
        assert ([f] + o)[i] == o[i - 1];
      }
    }
  }

  /** Assignment never introduces a duplicate key. */
  lemma {:induction false} PutWellFormed(o: Obj, k: string, v: Json)
    requires WellFormed(o)
    ensures WellFormed(Put(o, k, v))
  {
    if o != [] {
      HeadKeyFresh(o);
      if o[0].key == k {
        WellFormedCons(Field(k, v), o[1..]);
      } else {
        PutWellFormed(o[1..], k, v);
        WellFormedCons(o[0], Put(o[1..], k, v));
      }
    }
  }

  /** Assigning a key the object does not have appends it. */
  lemma {:induction false} PutNew(o: Obj, k: string, v: Json)
    requires k !in Keys(o)
    ensures Put(o, k, v) == o + [Field(k, v)]
  {
    if o != [] {
      PutNew(o[1..], k, v);
      assert [o[0]] + (o[1..] + [Field(k, v)]) == o + [Field(k, v)];
    }
  }

  /** `delete o[k]`: the key disappears and every other field stays in order. */
  function Delete(o: Obj, k: string): (r: Obj)
    ensures k !in Keys(r)
    ensures forall j :: j in Keys(r) <==> j in Keys(o) && j != k
  {
    if o == [] then []
    else if o[0].key == k then Delete(o[1..], k)
    else [o[0]] + Delete(o[1..], k)
  }

  /** Deleting a key leaves the value of every other key unchanged. */
  lemma {:induction false} DeleteGet(o: Obj, k: string, j: string)
    requires j != k
    ensures Get(Delete(o, k), j) == Get(o, j)
  {
    if o != [] {
      DeleteGet(o[1..], k, j);
    }
  }

  /** Deletion never introduces a duplicate key. */
  lemma {:induction false} DeleteWellFormed(o: Obj, k: string)
    requires WellFormed(o)
    ensures WellFormed(Delete(o, k))
  {
    if o != [] {
      DeleteWellFormed(o[1..], k);
      assert o[0].key !in Keys(o[1..]);
    }
  }

  /** `{...a, ...b}`: the fields of `b`, in order, assigned onto `a`. */
  function Spread(a: Obj, b: Obj): Obj
    decreases |b|
  {
    if b == [] then a else Spread(Put(a, b[0].key, b[0].value), b[1..])
  }

  /** In `{...a, ...b}` every key of `b` has `b`'s value and every other key has
      `a`'s value. */
  lemma {:induction false} SpreadGet(a: Obj, b: Obj, k: string)
    requires WellFormed(b)
    ensures Get(Spread(a, b), k) == if k in Keys(b) then Get(b, k) else Get(a, k)
    decreases |b|
  {
    if b != [] {
      var a' := Put(a, b[0].key, b[0].value);
      SpreadGet(a', b[1..], k);
      PutGet(a, b[0].key, b[0].value, k);
      assert b[0].key !in Keys(b[1..]);
    }
  }

  /** The keys of `a` keep their positions at the front of `{...a, ...b}`. */
  lemma {:induction false} SpreadKeysPrefix(a: Obj, b: Obj)
    ensures |Keys(a)| <= |Keys(Spread(a, b))| && Keys(a) == Keys(Spread(a, b))[..|a|]
    decreases |b|
  {
    if b != [] {
      var a' := Put(a, b[0].key, b[0].value);
      SpreadKeysPrefix(a', b[1..]);
      assert Keys(a) == Keys(a')[..|a|];
    }
  }

  /** The keys of `{...a, ...b}` are those of `a` and `b`. */
  lemma {:induction false} SpreadKeysMembers(a: Obj, b: Obj, k: string)
    ensures k in Keys(Spread(a, b)) <==> k in Keys(a) || k in Keys(b)
    decreases |b|
  {
    if b != [] {
      var a' := Put(a, b[0].key, b[0].value);
      SpreadKeysMembers(a', b[1..], k);
      assert Keys(b) == [b[0].key] + Keys(b[1..]);
    }
  }

  /** The keys of `a` keep their positions at the front of `{...a, ...b}`, and the
      keys of the result are those of `a` and `b`. */
  lemma SpreadKeys(a: Obj, b: Obj)
    ensures |Keys(a)| <= |Keys(Spread(a, b))| && Keys(a) == Keys(Spread(a, b))[..|a|]
    ensures forall k :: k in Keys(Spread(a, b)) <==> k in Keys(a) || k in Keys(b)
  {
    SpreadKeysPrefix(a, b);
    forall k ensures k in Keys(Spread(a, b)) <==> k in Keys(a) || k in Keys(b) {
      SpreadKeysMembers(a, b, k);
    }
  }


  /** Spreading a well-formed object onto a well-formed object gives a well-formed one. */
  lemma {:induction false} SpreadWellFormed(a: Obj, b: Obj)
    requires WellFormed(a)
    ensures WellFormed(Spread(a, b))
    decreases |b|
  {
    if b != [] {
      PutWellFormed(a, b[0].key, b[0].value);
      SpreadWellFormed(Put(a, b[0].key, b[0].value), b[1..]);
    }
  }

  /** `{...o}` is a field-by-field copy of `o`. */
  lemma SpreadIntoEmpty(o: Obj)
    requires WellFormed(o)
    ensures Spread([], o) == o
  {
    SpreadOntoPrefix(o, 0);
    assert o[..0] == [] && o[0..] == o;
  }

  /** In a well-formed object, the key at `n` does not occur before it. */
  lemma PrefixLacksNext(o: Obj, n: nat)
    requires WellFormed(o) && n < |o|
    ensures o[n].key !in Keys(o[..n])
  {
    forall i | 0 <= i < n ensures Keys(o[..n])[i] != o[n].key {
      assert o[..n][i] == o[i];
    }
  }

  /** Spreading the rest of an object onto its own prefix rebuilds the object. */
  lemma {:induction false} SpreadOntoPrefix(o: Obj, n: nat)
    requires WellFormed(o) && n <= |o|
    ensures Spread(o[..n], o[n..]) == o
    decreases |o| - n
  {
    if n < |o| {
      var p, f := o[..n], o[n];
      PrefixLacksNext(o, n);
      PutNew(p, f.key, f.value);
      assert Put(p, f.key, f.value) == o[..n + 1];
      assert o[n..][0] == f && o[n..][1..] == o[n + 1..];
      assert Spread(p, o[n..]) == Spread(o[..n + 1], o[n + 1..]);
      SpreadOntoPrefix(o, n + 1);
    } else {
      assert o[..n] == o;
    }
  }
}
