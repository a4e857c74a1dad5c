/** Insertion-ordered keys, as JavaScript objects enumerate their string
    keys (`Object.keys`, `Object.entries`): a key is listed once, at the
    place where it was first assigned. */
module Keys {

  predicate NoDup(xs: seq<string>)
  {
    forall i, j :: 0 <= i < j < |xs| ==> xs[i] != xs[j]
  }

  /** Position of the first occurrence of `x` in `xs`. */
  function FirstIndex(xs: seq<string>, x: string): (i: nat)
    requires x in xs
    ensures i < |xs| && xs[i] == x && x !in xs[..i]
  {
    if xs[0] == x then 0 else
      var k := FirstIndex(xs[1..], x);
      assert xs[..k + 1] == [xs[0]] + xs[1..][..k];
      k + 1
  }

  /** `keys` lists every value of `xs` exactly once, ordered by first
      appearance in `xs`. */
  ghost predicate InFirstAppearanceOrder(keys: seq<string>, xs: seq<string>)
  {
    && NoDup(keys)
    && (forall x :: x in keys <==> x in xs)
    && (forall i, j :: 0 <= i < j < |keys| ==> FirstIndex(xs, keys[i]) < FirstIndex(xs, keys[j]))
  }

  /** Assigning to a key of an object: a new key goes last, an existing one
      keeps its place. */
  function Insert(keys: seq<string>, x: string): (r: seq<string>)
    ensures x in r
    ensures forall y :: y in r <==> y in keys || y == x
    ensures NoDup(keys) ==> NoDup(r)
    ensures x in keys ==> r == keys
    ensures x !in keys ==> r == keys + [x]
  {
    if x in keys then keys else keys + [x]
  }

  /** The first occurrence is the only position with no earlier copy. */
  lemma {:induction false} FirstIndexUnique(xs: seq<string>, x: string, i: nat)
    requires i < |xs| && xs[i] == x && x !in xs[..i]
    ensures FirstIndex(xs, x) == i
  {
    if i > 0 {
      assert xs[0] in xs[..i];
      assert xs[1..][..i - 1] == xs[1..i];
      assert xs[..i] == [xs[0]] + xs[1..i];
      FirstIndexUnique(xs[1..], x, i - 1);
    }
  }

  lemma FirstIndexExtend(xs: seq<string>, x: string, y: string)
    requires y in xs
    ensures FirstIndex(xs + [x], y) == FirstIndex(xs, y)
  {
    var i := FirstIndex(xs, y);
    assert (xs + [x])[..i] == xs[..i];
    FirstIndexUnique(xs + [x], y, i);
  }

  /** Inserting each value in turn keeps the keys in first-appearance order. */
  lemma InsertKeepsOrder(keys: seq<string>, xs: seq<string>, x: string)
    requires InFirstAppearanceOrder(keys, xs)
    ensures InFirstAppearanceOrder(Insert(keys, x), xs + [x])
  {
    var r := Insert(keys, x);
    forall y | y in keys ensures FirstIndex(xs + [x], y) == FirstIndex(xs, y) {
      FirstIndexExtend(xs, x, y);
    }
    if x !in keys {
      assert (xs + [x])[..|xs|] == xs;
      FirstIndexUnique(xs + [x], x, |xs|);
      forall i, j | 0 <= i < j < |r|
        ensures FirstIndex(xs + [x], r[i]) < FirstIndex(xs + [x], r[j])
      {
        assert r[i] == keys[i] && r[i] in keys;
        if j < |keys| { assert r[j] == keys[j] && r[j] in keys; } else { assert r[j] == x; }
      }
    } else {
      forall i, j | 0 <= i < j < |r|
        ensures FirstIndex(xs + [x], r[i]) < FirstIndex(xs + [x], r[j])
      {
        assert r[i] in keys && r[j] in keys;
      }
    }
  }
}
