/** The order of a comparison: differences are listed by place, member names in
    code-point order and items by index, so the first five hundred are the same in
    every run. */
module DiffOrder {
  import opened Json
  import opened StructuralDiff
  import opened StructuralDiffTheorems
  import Text

  predicate TokenBefore(a: Token, b: Token) {
    match (a, b)
    case (Key(x), Key(y)) => Text.Less(x, y)
    case (Index(i), Index(j)) => i < j
    case _ => false
  }

  /** The places part at some token, and there the first comes before the second. */
  ghost predicate PlaceBefore(p: seq<Token>, q: seq<Token>) {
    exists k: nat :: k < |p| && k < |q| && p[..k] == q[..k] && TokenBefore(p[k], q[k])
  }

  ghost predicate InOrder(changes: seq<Change>) {
    forall i, j :: 0 <= i < j < |changes| ==> PlaceBefore(changes[i].at, changes[j].at)
  }

  /** Every change lies below `at`, at a token behind this one. */
  ghost predicate Behind(changes: seq<Change>, at: seq<Token>, token: Token) {
    forall i :: 0 <= i < |changes| ==>
      |changes[i].at| > |at| && at <= changes[i].at && TokenBefore(token, changes[i].at[|at|])
  }

  lemma PartsHere(at: seq<Token>, token: Token, p: seq<Token>, q: seq<Token>)
    requires at + [token] <= p && |q| > |at| && at <= q && TokenBefore(token, q[|at|])
    ensures PlaceBefore(p, q)
  {
    assert p[|at|] == (at + [token])[|at|] == token;
    assert p[..|at|] == (at + [token])[..|at|] == at == q[..|at|];
  }

  lemma JoinInOrder(part: seq<Change>, rest: seq<Change>, at: seq<Token>, token: Token)
    requires InOrder(part) && InOrder(rest) && Under(part, at, token) && Behind(rest, at, token)
    ensures InOrder(part + rest)
  {
    hide PlaceBefore;
    var all := part + rest;
    forall i, j | 0 <= i < j < |all|
      ensures PlaceBefore(all[i].at, all[j].at)
    {
      if i < |part| <= j { PartsHere(at, token, part[i].at, rest[j - |part|].at); }
    }
  }

  /** Differences are listed in the order of their places. */
  lemma {:induction false} DiffIsInOrder(before: Json, after: Json, at: seq<Token>)
    ensures InOrder(FullDiff(before, after, at))
    decreases before, 2
  {
    hide PlaceBefore;
    if SameType(before, after) && before.Obj? {
      var keys := Text.SortedKeys(before.fields.Keys + after.fields.Keys);
      Text.SortedKeysProperties(before.fields.Keys + after.fields.Keys);
      KeysInOrder(before, after, keys, at);
    } else if SameType(before, after) && before.Arr? {
      ItemsInOrder(before, after, 0, at);
    }
  }

  lemma {:induction false} KeysInOrder(before: Json, after: Json, keys: seq<string>, at: seq<Token>)
    requires before.Obj? && after.Obj? && Text.Sorted(keys)
    requires forall k :: k in keys ==> k in before.fields || k in after.fields
    ensures InOrder(DiffKeys(before, after, keys, at))
    ensures forall c :: c in DiffKeys(before, after, keys, at) ==>
              |c.at| > |at| && at <= c.at && c.at[|at|].Key? && c.at[|at|].name in keys
    decreases before, 1, |keys|
  {
    hide PlaceBefore, InOrder;
    if keys == [] {
      NothingInOrder();
    } else {
      var key, rest := keys[0], keys[1..];
      KeyPart(before, after, key, at);
      KeysInOrder(before, after, rest, at);
      forall j | 0 <= j < |rest|
        ensures Text.Less(key, rest[j])
      {
        assert rest[j] == keys[j + 1];
      }
      JoinInOrder(DiffKey(before, after, key, at), DiffKeys(before, after, rest, at), at, Key(key));
      forall c | c in DiffKey(before, after, key, at)
        ensures |c.at| > |at| && at <= c.at && c.at[|at|] == Key(key)
      {
        HeadOf(c.at, at, Key(key));
      }
    }
  }

  lemma NothingInOrder()
    ensures InOrder([])
  {
  }

  lemma OneInOrder(c: Change)
    ensures InOrder([c])
  {
  }

  lemma KeyPart(before: Json, after: Json, key: string, at: seq<Token>)
    requires before.Obj? && after.Obj? && (key in before.fields || key in after.fields)
    ensures InOrder(DiffKey(before, after, key, at)) && Under(DiffKey(before, after, key, at), at, Key(key))
    decreases before, 0
  {
    hide InOrder;
    var child := at + [Key(key)];
    OneInOrder(Change(child, Added));
    OneInOrder(Change(child, Removed));
    if key in before.fields && key in after.fields {
      DiffIsInOrder(before.fields[key], after.fields[key], child);
      DiffIsUnder(before.fields[key], after.fields[key], child);
    }
  }

  lemma ItemPart(before: Json, after: Json, i: nat, at: seq<Token>)
    requires before.Arr? && after.Arr? && (i < |before.items| || i < |after.items|)
    ensures InOrder(DiffItem(before, after, i, at)) && Under(DiffItem(before, after, i, at), at, Index(i))
    decreases before, 0
  {
    hide InOrder;
    var child := at + [Index(i)];
    OneInOrder(Change(child, Added));
    OneInOrder(Change(child, Removed));
    if i < |before.items| && i < |after.items| {
      DiffIsInOrder(before.items[i], after.items[i], child);
      DiffIsUnder(before.items[i], after.items[i], child);
    }
  }

  lemma {:induction false} ItemsInOrder(before: Json, after: Json, i: nat, at: seq<Token>)
    requires before.Arr? && after.Arr?
    ensures InOrder(DiffItems(before, after, i, at)) && FromItem(DiffItems(before, after, i, at), at, i)
    decreases before, 1, Longer(before, after) - i
  {
    hide PlaceBefore, InOrder;
    if i >= Longer(before, after) {
      NothingInOrder();
    } else {
      var part, rest := DiffItem(before, after, i, at), DiffItems(before, after, i + 1, at);
      ItemPart(before, after, i, at);
      ItemsInOrder(before, after, i + 1, at);
      JoinInOrder(part, rest, at, Index(i));
      FromItemOfUnder(part, rest, at, i);
    }
  }
}
