// Generated identifiers and insertion-ordered tables (panda_trace/store.py).
module Ids {
  import opened Text

  function PadZeros(s: string, width: nat): (r: string)
    requires AllDigits(s)
    ensures AllDigits(r) && |r| >= |s|
    decreases width - |s|
  {
    if |s| >= width then s else PadZeros("0" + s, width)
  }

  // f"{prefix}_{counter:08d}"
  function MakeId(prefix: string, counter: nat): string {
    prefix + "_" + PadZeros(Decimal(counter), 8)
  }

  lemma {:induction false} LeadingZero(s: string)
    requires AllDigits(s)
    ensures ParseDigits("0" + s) == ParseDigits(s)
  {
    if s != "" {
      LeadingZero(s[..|s| - 1]);
      assert ("0" + s)[..|"0" + s| - 1] == "0" + s[..|s| - 1];
    } else {
      assert ("0" + s)[..0] == "";
    }
  }

  lemma {:induction false} PaddedValue(s: string, width: nat)
    requires AllDigits(s)
    ensures ParseDigits(PadZeros(s, width)) == ParseDigits(s)
    decreases width - |s|
  {
    if |s| < width {
      LeadingZero(s);
      PaddedValue("0" + s, width);
    }
  }

  // Different counter values give different identifiers, also beyond eight digits.
  lemma IdsDiffer(prefix: string, m: nat, n: nat)
    requires MakeId(prefix, m) == MakeId(prefix, n)
    ensures m == n
  {
    var a, b := PadZeros(Decimal(m), 8), PadZeros(Decimal(n), 8);
    assert (prefix + "_" + a)[|prefix| + 1..] == a;
    assert (prefix + "_" + b)[|prefix| + 1..] == b;
    PaddedValue(Decimal(m), 8);
    PaddedValue(Decimal(n), 8);
    ParseDecimal(m);
    ParseDecimal(n);
  }

  // f"{key}:{index}"
  function BatchItemKey(key: string, index: nat): string {
    key + ":" + Decimal(index)
  }

  // No two (batch key, index) pairs derive the same idempotency key.
  lemma BatchItemKeysDiffer(a: string, i: nat, b: string, j: nat)
    requires BatchItemKey(a, i) == BatchItemKey(b, j)
    ensures a == b && i == j
  {
    assert forall c :: c in Decimal(i) || c in Decimal(j) ==> IsDigit(c);
    SuffixAfterSeparator(a, b, Decimal(i), Decimal(j), ':');
    DecimalInjective(i, j);
  }

  // ---------- dictionaries in insertion order ----------

  datatype Table<V> = Table(order: seq<string>, at: map<string, V>) {
    // Assigning to a key that is present keeps its place; a new key goes to the end.
    function Put(key: string, value: V): Table<V> {
      Table(if key in at then order else order + [key], at[key := value])
    }

    ghost predicate Ok() {
      && (forall k :: k in order <==> k in at)
      && (forall i, j :: 0 <= i < j < |order| ==> order[i] != order[j])
    }
  }

  // The values under the given keys, in the order of the keys.
  function ValuesAt<V>(keys: seq<string>, at: map<string, V>): seq<V> {
    if keys == [] then []
    else
      var last := keys[|keys| - 1];
      ValuesAt(keys[..|keys| - 1], at) + if last in at then [at[last]] else []
  }

  function Values<V>(table: Table<V>): seq<V> {
    ValuesAt(table.order, table.at)
  }

  lemma {:induction false} ValuesUnaffected<V>(keys: seq<string>, at: map<string, V>, key: string, value: V)
    requires key !in keys
    ensures ValuesAt(keys, at[key := value]) == ValuesAt(keys, at)
  {
    if keys != [] {
      ValuesUnaffected(keys[..|keys| - 1], at, key, value);
    }
  }

  // A value put under a new key comes last; nothing else moves and nothing is replaced.
  lemma PutFresh<V>(table: Table<V>, key: string, value: V)
    requires table.Ok() && key !in table.at
    ensures table.Put(key, value).Ok()
    ensures Values(table.Put(key, value)) == Values(table) + [value]
  {
    ValuesUnaffected(table.order, table.at, key, value);
    assert (table.order + [key])[..|table.order|] == table.order;
  }

  lemma {:induction false} ValueMembers<V>(keys: seq<string>, at: map<string, V>)
    ensures forall v :: v in ValuesAt(keys, at) ==> exists k :: k in keys && k in at && at[k] == v
    ensures forall k :: k in keys && k in at ==> at[k] in ValuesAt(keys, at)
  {
    if keys != [] {
      ValueMembers(keys[..|keys| - 1], at);
    }
  }
}
