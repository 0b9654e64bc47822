/**
 The advisory-lock keys of a writer: one text per enforced value, pushed field by field and then sorted
 as strings.  Sorting the texts orders them by field, the same way for every writer of the tenant.
 */
module IdentityLocks {
  import opened Prelude
  import opened PartnerGroup

  type ClientId = string

  function FieldName(f: Field): string {
    match f
    case Pan => "pan"
    case Gst => "gst"
    case Bank => "bank"
    case Upi => "upi"
  }

  function KeyText(client: ClientId, f: Field, value: string): string {
    client + ":" + FieldName(f) + ":" + value
  }

  /** The fields in the order of their names. */
  const RANKED: seq<Field> := [Bank, Gst, Pan, Upi]

  function Rank(f: Field): (r: nat)
    ensures r < 4 && RANKED[r] == f
  {
    match f
    case Bank => 0
    case Gst => 1
    case Pan => 2
    case Upi => 3
  }

  /** The key of one field: none for a field that is not enforced or has no value. */
  function FieldKey(client: ClientId, d: Details, policy: Policy, f: Field): seq<string> {
    var value := Normalize(f, d.Get(f));
    if Enforced(f, policy) && value.Some? then [KeyText(client, f, value.value)] else []
  }

  function KeysFrom(client: ClientId, d: Details, policy: Policy, order: seq<Field>): seq<string> {
    if order == [] then []
    else KeysFrom(client, d, policy, order[..|order| - 1]) +
         FieldKey(client, d, policy, order[|order| - 1])
  }

  // ---- String order -----------------------------------------------------------------------------

  /** Comparison of strings by code unit. */
  predicate Less(a: string, b: string) {
    b != "" && (a == "" || a[0] < b[0] || (a[0] == b[0] && Less(a[1..], b[1..])))
  }

  lemma {:induction false} LessIsStrict(a: string, b: string)
    ensures !(Less(a, b) && Less(b, a)) && !Less(a, a)
    ensures Less(a, b) || Less(b, a) || a == b
  {
    if a != "" && b != "" {
      LessIsStrict(a[1..], b[1..]);
      assert a == [a[0]] + a[1..] && b == [b[0]] + b[1..];
    }
    if a != "" { LessIsStrict(a[1..], a[1..]); }
  }

  lemma {:induction false} LessIsTransitive(a: string, b: string, c: string)
    requires Less(a, b) && Less(b, c)
    ensures Less(a, c)
  {
    if a != "" && a[0] == b[0] && b[0] == c[0] { LessIsTransitive(a[1..], b[1..], c[1..]); }
  }

  lemma {:induction false} LessAfterPrefix(p: string, a: string, b: string)
    ensures Less(p + a, p + b) <==> Less(a, b)
  {
    if p == "" {
      assert p + a == a && p + b == b;
    } else {
      LessAfterPrefix(p[1..], a, b);
      assert (p + a)[1..] == p[1..] + a && (p + b)[1..] == p[1..] + b;
    }
  }

  /** Two keys of one tenant for different fields compare as their fields do, whatever the values. */
  lemma KeysCompareByField(client: ClientId, f: Field, v: string, g: Field, w: string)
    requires f != g
    ensures Less(KeyText(client, f, v), KeyText(client, g, w)) <==> Rank(f) < Rank(g)
  {
    var a, b := FieldName(f) + ":" + v, FieldName(g) + ":" + w;
    assert a[0] == FieldName(f)[0] && b[0] == FieldName(g)[0];
    assert KeyText(client, f, v) == (client + ":") + a;
    assert KeyText(client, g, w) == (client + ":") + b;
    LessAfterPrefix(client + ":", a, b);
  }

  // ---- Sorting ----------------------------------------------------------------------------------

  ghost predicate Ascending(s: seq<string>) {
    forall i, j :: 0 <= i < j < |s| ==> !Less(s[j], s[i])
  }

  lemma NotLessIsTransitive(a: string, b: string, c: string)
    requires !Less(b, a) && !Less(c, b)
    ensures !Less(c, a)
  {
    LessIsStrict(a, b);
    LessIsStrict(b, c);
    if Less(c, a) && a != b { LessIsTransitive(c, a, b); }
  }

  /** The position of a new key in a sorted list. */
  method PlaceFor(s: seq<string>, key: string) returns (k: nat)
    requires Ascending(s)
    ensures k <= |s|
    ensures forall i :: 0 <= i < k ==> !Less(key, s[i])
    ensures forall i :: k <= i < |s| ==> !Less(s[i], key)
  {
    k := 0;
    while k < |s| && Less(s[k], key)
      invariant k <= |s| && forall i :: 0 <= i < k ==> !Less(key, s[i])
    {
      LessIsStrict(s[k], key);
      k := k + 1;
    }
    forall i | k < i < |s| ensures !Less(s[i], key) { NotLessIsTransitive(key, s[k], s[i]); }
  }

  method Sort(keys: seq<string>) returns (sorted: seq<string>)
    ensures Ascending(sorted) && multiset(sorted) == multiset(keys)
  {
    sorted := [];
    for n := 0 to |keys|
      invariant Ascending(sorted) && multiset(sorted) == multiset(keys[..n])
    {
      var k := PlaceFor(sorted, keys[n]);
      assert sorted == sorted[..k] + sorted[k..];
      sorted := sorted[..k] + [keys[n]] + sorted[k..];
      assert keys[..n + 1] == keys[..n] + [keys[n]];
    }
    assert keys[..|keys|] == keys;
  }

  /** Sorting leaves no choice: one multiset of keys has one ascending order. */
  lemma {:induction false} AscendingIsUnique(a: seq<string>, b: seq<string>)
    requires Ascending(a) && Ascending(b) && multiset(a) == multiset(b)
    ensures a == b
  {
    assert |multiset(a)| == |a| && |multiset(b)| == |b|;
    if a != [] {
      FirstIsLeast(a, b);
      FirstIsLeast(b, a);
      LessIsStrict(a[0], b[0]);
      assert a == [a[0]] + a[1..] && b == [b[0]] + b[1..];
      assert multiset(a[1..]) == multiset(a) - multiset{a[0]};
      assert multiset(b[1..]) == multiset(b) - multiset{b[0]};
      AscendingIsUnique(a[1..], b[1..]);
    }
  }

  lemma FirstIsLeast(a: seq<string>, b: seq<string>)
    requires a != [] && b != [] && Ascending(a) && multiset(a) == multiset(b)
    ensures !Less(b[0], a[0])
  {
    assert b[0] in multiset(a);
    var i :| 0 <= i < |a| && a[i] == b[0];
    LessIsStrict(a[0], a[0]);
  }

  // ---- The key list -----------------------------------------------------------------------------

  /** The keys of the ranked fields, in rank order: what sorting always arrives at. */
  function LockOrder(client: ClientId, d: Details, policy: Policy): seq<string> {
    KeysFrom(client, d, policy, RANKED)
  }

  lemma FourFields(client: ClientId, d: Details, policy: Policy, a: Field, b: Field, c: Field, e: Field)
    ensures KeysFrom(client, d, policy, [a, b, c, e]) ==
      FieldKey(client, d, policy, a) + FieldKey(client, d, policy, b) +
      FieldKey(client, d, policy, c) + FieldKey(client, d, policy, e)
  {
    assert [a, b, c, e][..3] == [a, b, c] && [a, b, c][..2] == [a, b] && [a, b][..1] == [a];
    assert [a][..0] == [];
    assert KeysFrom(client, d, policy, [a]) == FieldKey(client, d, policy, a);
    assert KeysFrom(client, d, policy, [a, b]) ==
      FieldKey(client, d, policy, a) + FieldKey(client, d, policy, b);
  }

  /** The key of one field of one tenant, when the field has a value. */
  function KeyOf(client: ClientId, name: string, value: Option<string>): seq<string> {
    match value
    case None => []
    case Some(v) => [client + ":" + name + ":" + v]
  }

  /** Bank first, then GST, PAN and UPI; bank and UPI only when the policy enforces them. */
  lemma LockOrderIs(client: ClientId, d: Details, policy: Policy)
    ensures LockOrder(client, d, policy) ==
      (if policy.bank then KeyOf(client, "bank", Normalize(Bank, d.bank)) else []) +
      KeyOf(client, "gst", Normalize(Gst, d.gst)) +
      KeyOf(client, "pan", Normalize(Pan, d.pan)) +
      (if policy.upi then KeyOf(client, "upi", Normalize(Upi, d.upi)) else [])
  {
    FourFields(client, d, policy, Bank, Gst, Pan, Upi);
    assert FieldKey(client, d, policy, Gst) == KeyOf(client, "gst", Normalize(Gst, d.gst));
    assert FieldKey(client, d, policy, Pan) == KeyOf(client, "pan", Normalize(Pan, d.pan));
  }

  lemma FieldKeysCompare(client: ClientId, d: Details, policy: Policy, f: Field, g: Field)
    requires f != g
    ensures FieldKey(client, d, policy, f) != [] && FieldKey(client, d, policy, g) != [] ==>
      var a, b := FieldKey(client, d, policy, f)[0], FieldKey(client, d, policy, g)[0];
      (Less(a, b) <==> Rank(f) < Rank(g)) && a != b
  {
    var v, w := Normalize(f, d.Get(f)), Normalize(g, d.Get(g));
    if v.Some? && w.Some? {
      KeysCompareByField(client, f, v.value, g, w.value);
      KeysCompareByField(client, g, w.value, f, v.value);
      LessIsStrict(KeyText(client, f, v.value), KeyText(client, g, w.value));
    }
  }

  lemma AppendAscends(client: ClientId, d: Details, policy: Policy, order: seq<Field>, f: Field)
    requires Ascending(KeysFrom(client, d, policy, order))
    requires forall k :: k in KeysFrom(client, d, policy, order) ==>
      exists g :: Rank(g) < Rank(f) && [k] == FieldKey(client, d, policy, g)
    ensures Ascending(KeysFrom(client, d, policy, order) + FieldKey(client, d, policy, f))
  {
    var ks := KeysFrom(client, d, policy, order);
    forall i | 0 <= i < |ks| && FieldKey(client, d, policy, f) != []
      ensures !Less(FieldKey(client, d, policy, f)[0], ks[i])
    {
      var g :| Rank(g) < Rank(f) && [ks[i]] == FieldKey(client, d, policy, g);
      FieldKeysCompare(client, d, policy, f, g);
    }
  }

  lemma {:induction false} RankedKeysAscend(client: ClientId, d: Details, policy: Policy, n: nat)
    requires n <= 4
    ensures Ascending(KeysFrom(client, d, policy, RANKED[..n]))
    ensures forall k :: k in KeysFrom(client, d, policy, RANKED[..n]) ==>
      exists g :: Rank(g) < n && [k] == FieldKey(client, d, policy, g)
  {
    if n > 0 {
      RankedKeysAscend(client, d, policy, n - 1);
      assert RANKED[..n][..n - 1] == RANKED[..n - 1];
      assert Rank(RANKED[n - 1]) == n - 1;
      AppendAscends(client, d, policy, RANKED[..n - 1], RANKED[n - 1]);
    }
  }

  lemma LockOrderAscends(client: ClientId, d: Details, policy: Policy)
    ensures Ascending(LockOrder(client, d, policy))
    ensures multiset(KeysFrom(client, d, policy, FIELDS)) == multiset(LockOrder(client, d, policy))
  {
    assert RANKED[..4] == RANKED;
    RankedKeysAscend(client, d, policy, 4);
    FourFields(client, d, policy, Bank, Gst, Pan, Upi);
    FourFields(client, d, policy, Pan, Gst, Bank, Upi);
  }

  /** The key list of one writer: pushed in field order, then sorted as strings.  The result is the
      rank order of the fields, so every writer of the tenant locks its fields in the same order. */
  method LockKeys(client: ClientId, d: Details, policy: Policy) returns (keys: seq<string>)
    ensures keys == LockOrder(client, d, policy)
    ensures Ascending(keys)
  {
    keys := [];
    for i := 0 to |FIELDS|
      invariant keys == KeysFrom(client, d, policy, FIELDS[..i])
    {
      var f := FIELDS[i];
      var value := Normalize(f, d.Get(f));
      if Enforced(f, policy) && value.Some? {
        keys := keys + [KeyText(client, f, value.value)];
      }
      assert FIELDS[..i + 1][..i] == FIELDS[..i];
    }
    assert FIELDS[..|FIELDS|] == FIELDS;
    LockOrderAscends(client, d, policy);
    keys := Sort(keys);
    AscendingIsUnique(keys, LockOrder(client, d, policy));
  }
}
