/** The light supply check: a test over the keys changed by one block that stands for the
    conservation of usei and wei over the whole bank store (app/invariance.go). */
module Supply {
  import opened Wrappers

  type Byte = x: int | 0 <= x < 256
  type Bytes = seq<Byte>

  const SUPPLY_KEY: Byte := 0x00
  const BALANCES_PREFIX: Byte := 0x02
  const WEI_BALANCES_PREFIX: Byte := 0x04
  const ONE_USEI_IN_WEI := 1_000_000_000_000

  /** How stored values decode, and the base denomination. */
  datatype Codec = Codec(coin: Bytes -> Option<int>, amount: Bytes -> Option<int>, denom: Bytes)

  type Store = map<Bytes, Bytes>

  datatype Pair = Set(key: Bytes, value: Bytes) | Delete(key: Bytes)

  // ---------------------------------------------------------------- bank store

  function AddressLength(k: Bytes): nat
    requires |k| >= 2
  {
    k[1]
  }

  /** A length-prefixed account address followed by the base denomination. */
  predicate IsUseiKey(c: Codec, k: Bytes) {
    |k| >= 2 && k[0] == BALANCES_PREFIX && |k| >= 2 + AddressLength(k) && k[2 + AddressLength(k)..] == c.denom
  }

  predicate IsWeiKey(k: Bytes) {
    |k| >= 1 && k[0] == WEI_BALANCES_PREFIX
  }

  function SupplyOf(c: Codec): Bytes {
    [SUPPLY_KEY] + c.denom
  }

  datatype Kind = Usei | Wei

  predicate IsKey(c: Codec, kind: Kind, k: Bytes) {
    if kind.Usei? then IsUseiKey(c, k) else IsWeiKey(k)
  }

  function Decode(c: Codec, kind: Kind, v: Bytes): Option<int> {
    if kind.Usei? then c.coin(v) else c.amount(v)
  }

  /** The balance an entry carries; an entry of another kind or an unreadable one carries none. */
  function Amount(c: Codec, kind: Kind, k: Bytes, v: Bytes): int {
    if IsKey(c, kind, k) && Decode(c, kind, v).Some? then Decode(c, kind, v).value else 0
  }

  function AmountAt(c: Codec, kind: Kind, s: Store, k: Bytes): int {
    if k in s then Amount(c, kind, k, s[k]) else 0
  }

  /** The sum of all balances of one kind over the whole store. */
  ghost function Total(c: Codec, kind: Kind, s: Store): int
    decreases |s|
  {
    if s == map[] then 0
    else
      var k :| k in s;
      assert |s - {k}| < |s| by { assert s.Keys == (s - {k}).Keys + {k}; }
      Amount(c, kind, k, s[k]) + Total(c, kind, s - {k})
  }

  function SupplyAt(c: Codec, s: Store): Option<int> {
    if SupplyOf(c) in s then c.amount(s[SupplyOf(c)]) else Some(0)
  }

  /** What the block must leave unchanged, in wei. */
  ghost function Quantity(c: Codec, s: Store): int {
    var supply := if SupplyAt(c, s).Some? then SupplyAt(c, s).value else 0;
    (Total(c, Usei, s) - supply) * ONE_USEI_IN_WEI + Total(c, Wei, s)
  }

  lemma SmallerWithout(s: Store, k: Bytes)
    requires k in s
    ensures |s - {k}| < |s|
  {
    assert s.Keys == (s - {k}).Keys + {k};
  }

  /** Any entry may be taken out of the sum first. */
  lemma {:induction false} TotalWithout(c: Codec, kind: Kind, s: Store, k: Bytes)
    requires k in s
    ensures Total(c, kind, s) == Amount(c, kind, k, s[k]) + Total(c, kind, s - {k})
    decreases |s|
  {
    var j :| j in s && Total(c, kind, s) == Amount(c, kind, j, s[j]) + Total(c, kind, s - {j});
    if j != k {
      SmallerWithout(s, j);
      SmallerWithout(s, k);
      TotalWithout(c, kind, s - {j}, k);
      TotalWithout(c, kind, s - {k}, j);
      assert s - {j} - {k} == s - {k} - {j};
    }
  }

  function ApplyOne(s: Store, p: Pair): Store {
    match p
    case Set(k, v) => s[k := v]
    case Delete(k) => s - {k}
  }

  function Apply(s: Store, ps: seq<Pair>): Store {
    if ps == [] then s else ApplyOne(Apply(s, ps[..|ps| - 1]), ps[|ps| - 1])
  }

  /** The balance a change leaves behind. */
  function After(c: Codec, kind: Kind, p: Pair): int {
    match p
    case Set(k, v) => Amount(c, kind, k, v)
    case Delete(_) => 0
  }

  lemma TotalStep(c: Codec, kind: Kind, s: Store, p: Pair)
    ensures Total(c, kind, ApplyOne(s, p)) == Total(c, kind, s) - AmountAt(c, kind, s, p.key) + After(c, kind, p)
  {
    var s' := ApplyOne(s, p);
    if p.key in s {
      TotalWithout(c, kind, s, p.key);
    } else {
      assert s - {p.key} == s;
    }
    if p.Set? {
      TotalWithout(c, kind, s', p.key);
      assert s' - {p.key} == s - {p.key};
    }
  }

  // ---------------------------------------------------------------- sums over the changes

  function SumAfter(c: Codec, kind: Kind, ps: seq<Pair>): int {
    if ps == [] then 0 else SumAfter(c, kind, ps[..|ps| - 1]) + After(c, kind, ps[|ps| - 1])
  }

  function SumBefore(c: Codec, kind: Kind, s: Store, ps: seq<Pair>): int {
    if ps == [] then 0
    else SumBefore(c, kind, s, ps[..|ps| - 1]) + AmountAt(c, kind, s, ps[|ps| - 1].key)
  }

  ghost predicate DistinctKeys(ps: seq<Pair>) {
    forall i, j :: 0 <= i < j < |ps| ==> ps[i].key != ps[j].key
  }

  lemma {:induction false} UntouchedKey(s: Store, ps: seq<Pair>, k: Bytes)
    requires forall i :: 0 <= i < |ps| ==> ps[i].key != k
    ensures k in Apply(s, ps) <==> k in s
    ensures k in s ==> Apply(s, ps)[k] == s[k]
  {
    if ps != [] {
      UntouchedKey(s, ps[..|ps| - 1], k);
    }
  }

  /** The whole-store total moves by what the changed keys gain and lose. */
  lemma {:induction false} TotalAfterChanges(c: Codec, kind: Kind, s: Store, ps: seq<Pair>)
    requires DistinctKeys(ps)
    ensures Total(c, kind, Apply(s, ps)) == Total(c, kind, s) - SumBefore(c, kind, s, ps) + SumAfter(c, kind, ps)
  {
    if ps != [] {
      var front, p := ps[..|ps| - 1], ps[|ps| - 1];
      TotalAfterChanges(c, kind, s, front);
      UntouchedKey(s, front, p.key);
      TotalStep(c, kind, Apply(s, front), p);
    }
  }

  // ---------------------------------------------------------------- unreadable changes

  /** The check drops a change whose new value does not decode. */
  predicate Readable(c: Codec, p: Pair) {
    p.Set? ==>
      && (IsUseiKey(c, p.key) ==> c.coin(p.value).Some?)
      && (IsWeiKey(p.key) || p.key == SupplyOf(c) ==> c.amount(p.value).Some?)
  }

  function Effective(c: Codec, ps: seq<Pair>): seq<Pair> {
    if ps == [] then []
    else Effective(c, ps[..|ps| - 1]) + if Readable(c, ps[|ps| - 1]) then [ps[|ps| - 1]] else []
  }

  lemma {:induction false} EffectiveMembers(c: Codec, ps: seq<Pair>)
    ensures forall q :: q in Effective(c, ps) <==> q in ps && Readable(c, q)
    ensures (forall q :: q in ps ==> Readable(c, q)) ==> Effective(c, ps) == ps
  {
    hide Readable;
    if ps != [] {
      hide Effective;
      var front, p := ps[..|ps| - 1], ps[|ps| - 1];
      assert ps == front + [p];
      EffectiveMembers(c, front);
      EffectiveStep(c, front, p);
    }
  }

  lemma {:induction false} EffectiveDistinct(c: Codec, ps: seq<Pair>)
    requires DistinctKeys(ps)
    ensures DistinctKeys(Effective(c, ps))
  {
    if ps != [] {
      hide *;
      var front, p := ps[..|ps| - 1], ps[|ps| - 1];
      assert ps == front + [p];
      DistinctFront(ps);
      EffectiveDistinct(c, front);
      EffectiveMembers(c, front);
      EffectiveStep(c, front, p);
      DistinctAppend(Effective(c, front), p);
    }
  }

  lemma DistinctFront(ps: seq<Pair>)
    requires ps != [] && DistinctKeys(ps)
    ensures DistinctKeys(ps[..|ps| - 1]) && forall q :: q in ps[..|ps| - 1] ==> q.key != ps[|ps| - 1].key
  {
  }

  lemma DistinctAppend(ps: seq<Pair>, p: Pair)
    requires DistinctKeys(ps) && forall q :: q in ps ==> q.key != p.key
    ensures DistinctKeys(ps + [p])
  {
    forall i | 0 <= i < |ps| ensures ps[i].key != p.key {
      assert ps[i] in ps;
    }
  }

  /** With one change per key, the changed key holds what its change says. */
  lemma {:induction false} ChangedKey(s: Store, ps: seq<Pair>, p: Pair)
    requires DistinctKeys(ps) && p in ps
    ensures p.Set? ==> p.key in Apply(s, ps) && Apply(s, ps)[p.key] == p.value
    ensures p.Delete? ==> p.key !in Apply(s, ps)
  {
    var last := ps[|ps| - 1];
    if last != p {
      var i :| 0 <= i < |ps| && ps[i] == p;
      assert ps[..|ps| - 1][i] == p;
      ChangedKey(s, ps[..|ps| - 1], p);
    }
  }

  ghost predicate NonNegative(c: Codec, kind: Kind, ps: seq<Pair>) {
    forall p :: p in ps ==> After(c, kind, p) >= 0
  }

  // ---------------------------------------------------------------- the check

  function AddressOf(kind: Kind, k: Bytes): Bytes
    requires |k| >= 1 && (kind.Usei? ==> |k| >= 2 && |k| >= 2 + AddressLength(k))
  {
    if kind.Usei? then k[2..2 + AddressLength(k)] else k[1..]
  }

  /** The key under which the check looks an address up again. */
  function KeyOf(c: Codec, kind: Kind, a: Bytes): Bytes
    requires kind.Usei? ==> |a| < 256
  {
    if kind.Usei? then [BALANCES_PREFIX, |a|] + a + c.denom else [WEI_BALANCES_PREFIX] + a
  }

  lemma KeyRoundTrip(c: Codec, kind: Kind, k: Bytes)
    requires IsKey(c, kind, k)
    ensures kind.Usei? ==> |AddressOf(kind, k)| < 256
    ensures KeyOf(c, kind, AddressOf(kind, k)) == k
  {
    if kind.Usei? {
      assert k == [k[0], k[1]] + k[2..2 + AddressLength(k)] + k[2 + AddressLength(k)..];
    }
  }

  ghost predicate KeysOf(c: Codec, kind: Kind, addrs: seq<Bytes>) {
    forall i :: 0 <= i < |addrs| ==> (kind.Usei? ==> |addrs[i]| < 256) && IsKey(c, kind, KeyOf(c, kind, addrs[i]))
  }

  function SumAt(c: Codec, kind: Kind, s: Store, addrs: seq<Bytes>): int
    requires kind.Usei? ==> forall i :: 0 <= i < |addrs| ==> |addrs[i]| < 256
  {
    if addrs == [] then 0
    else SumAt(c, kind, s, addrs[..|addrs| - 1]) + AmountAt(c, kind, s, KeyOf(c, kind, addrs[|addrs| - 1]))
  }

  lemma SumAtStep(c: Codec, kind: Kind, s: Store, addrs: seq<Bytes>, a: Bytes)
    requires kind.Usei? ==> |a| < 256 && forall i :: 0 <= i < |addrs| ==> |addrs[i]| < 256
    ensures SumAt(c, kind, s, addrs + [a]) == SumAt(c, kind, s, addrs) + AmountAt(c, kind, s, KeyOf(c, kind, a))
  {
    assert (addrs + [a])[..|addrs|] == addrs;
  }

  /** One more change: what it adds to the running sums. */
  lemma SumsStep(c: Codec, kind: Kind, s: Store, ps: seq<Pair>, i: nat)
    requires i < |ps|
    ensures var p := ps[i]; var done, next := Effective(c, ps[..i]), Effective(c, ps[..i + 1]);
            if Readable(c, p) then
              && SumAfter(c, kind, next) == SumAfter(c, kind, done) + After(c, kind, p)
              && SumBefore(c, kind, s, next) == SumBefore(c, kind, s, done) + AmountAt(c, kind, s, p.key)
            else next == done
    ensures !IsKey(c, kind, ps[i].key) ==> After(c, kind, ps[i]) == 0 && AmountAt(c, kind, s, ps[i].key) == 0
    ensures IsKey(c, kind, ps[i].key) ==> (Readable(c, ps[i]) <==> ps[i].Delete? || Decode(c, kind, ps[i].value).Some?)
  {
    assert ps[..i + 1][..i] == ps[..i];
  }

  /** The two loops over one kind of balance: totals after and before over the changed addresses,
      or nothing when a new balance is negative. */
  method ChangedTotals(c: Codec, kind: Kind, s: Store, changes: seq<Pair>) returns (r: Option<(int, int)>)
    ensures r.Some? <==> NonNegative(c, kind, Effective(c, changes))
    ensures r.Some? ==> r.value.0 == SumAfter(c, kind, Effective(c, changes))
                        && r.value.1 == SumBefore(c, kind, s, Effective(c, changes))
  {
    hide Amount, Readable, SumAfter, SumBefore, SumAt, Effective;
    var postTotal := 0;
    var changedAddrs: seq<Bytes> := [];
    SumsStart(c, kind, s, changes);
    for i := 0 to |changes|
      invariant KeysOf(c, kind, changedAddrs)
      invariant postTotal == SumAfter(c, kind, Effective(c, changes[..i]))
      invariant SumAt(c, kind, s, changedAddrs) == SumBefore(c, kind, s, Effective(c, changes[..i]))
      invariant forall p :: p in changes[..i] && Readable(c, p) ==> After(c, kind, p) >= 0
    {
      var p := changes[i];
      SumsStep(c, kind, s, changes, i);
      if !IsKey(c, kind, p.key) {
        continue;
      }
      if p.Set? {
        var amount := Decode(c, kind, p.value);
        if amount.None? {
          continue;
        }
        AfterDecoded(c, kind, p);
        if amount.value < 0 {
          EffectiveMembers(c, changes);
          assert p in changes;
          return None;
        }
        postTotal := postTotal + amount.value;
      }
      KeyRoundTrip(c, kind, p.key);
      SumAtStep(c, kind, s, changedAddrs, AddressOf(kind, p.key));
      changedAddrs := changedAddrs + [AddressOf(kind, p.key)];
    }
    assert changes[..|changes|] == changes;
    EffectiveMembers(c, changes);
    var preTotal := 0;
    for i := 0 to |changedAddrs|
      invariant preTotal == SumAt(c, kind, s, changedAddrs[..i])
    {
      SumAtStep(c, kind, s, changedAddrs[..i], changedAddrs[i]);
      assert changedAddrs[..i] + [changedAddrs[i]] == changedAddrs[..i + 1];
      var key := KeyOf(c, kind, changedAddrs[i]);
      if key in s {
        var amount := Decode(c, kind, s[key]);
        AmountDecoded(c, kind, key, s[key]);
        if amount.Some? {
          preTotal := preTotal + amount.value;
        }
      }
    }
    assert changedAddrs[..|changedAddrs|] == changedAddrs;
    return Some((postTotal, preTotal));
  }

  lemma SumsStart(c: Codec, kind: Kind, s: Store, ps: seq<Pair>)
    ensures SumAfter(c, kind, Effective(c, ps[..0])) == 0 == SumBefore(c, kind, s, Effective(c, ps[..0]))
    ensures SumAt(c, kind, s, []) == 0
  {
  }

  lemma AmountDecoded(c: Codec, kind: Kind, k: Bytes, v: Bytes)
    requires IsKey(c, kind, k)
    ensures Amount(c, kind, k, v) == if Decode(c, kind, v).Some? then Decode(c, kind, v).value else 0
  {
  }

  lemma AfterDecoded(c: Codec, kind: Kind, p: Pair)
    requires p.Set? && IsKey(c, kind, p.key) && Decode(c, kind, p.value).Some?
    ensures After(c, kind, p) == Decode(c, kind, p.value).value
  {
  }

  /** How much the stored supply of the base denomination changes. */
  method SupplyChanged(c: Codec, s: Store, changes: seq<Pair>) returns (d: int)
    requires SupplyAt(c, s).Some? && DistinctKeys(changes)
    ensures var post := SupplyAt(c, Apply(s, Effective(c, changes)));
            post.Some? && d == post.value - SupplyAt(c, s).value
  {
    hide Effective, Apply;
    EffectiveDistinct(c, changes);
    EffectiveMembers(c, changes);
    var preTotalSupply := SupplyAt(c, s).value;
    for i := 0 to |changes|
      invariant forall j :: 0 <= j < i ==> changes[j].key != SupplyOf(c)
    {
      var p := changes[i];
      if p.key == SupplyOf(c) {
        if Readable(c, p) {
          ChangedKey(s, Effective(c, changes), p);
        } else {
          NoSupplyChange(c, s, changes);
        }
        if p.Delete? {
          return -preTotalSupply;
        }
        var amt := c.amount(p.value);
        return if amt.Some? then amt.value - preTotalSupply else 0;
      }
    }
    NoSupplyChange(c, s, changes);
    return 0;
  }

  lemma NoSupplyChange(c: Codec, s: Store, changes: seq<Pair>)
    requires forall p :: p in changes && p.key == SupplyOf(c) ==> !Readable(c, p)
    ensures SupplyAt(c, Apply(s, Effective(c, changes))) == SupplyAt(c, s)
  {
    EffectiveMembers(c, changes);
    forall i | 0 <= i < |Effective(c, changes)| ensures Effective(c, changes)[i].key != SupplyOf(c) {
      assert Effective(c, changes)[i] in changes;
    }
    UntouchedKey(s, Effective(c, changes), SupplyOf(c));
  }

  datatype Verdict = Passed | NegativeBalance | WeiRemainder | UseiMismatch

  /** Conservation over the whole store, for the changes the check can read. */
  ghost predicate Conserves(c: Codec, s: Store, changes: seq<Pair>) {
    var readable := Effective(c, changes);
    && NonNegative(c, Usei, readable) && NonNegative(c, Wei, readable)
    && (SupplyAt(c, s).Some? ==> Quantity(c, Apply(s, readable)) == Quantity(c, s))
  }

  /** The check of one block passes exactly when the block conserves the whole store's quantity. */
  method LightInvarianceTotalSupply(c: Codec, s: Store, changes: seq<Pair>) returns (v: Verdict)
    requires DistinctKeys(changes)
    ensures v.Passed? <==> Conserves(c, s, changes)
  {
    hide Effective, Apply, Total, SumAfter, SumBefore, Amount, NonNegative, DistinctKeys;
    var usei := ChangedTotals(c, Usei, s, changes);
    if usei.None? {
      return NegativeBalance;
    }
    var wei := ChangedTotals(c, Wei, s, changes);
    if wei.None? {
      return NegativeBalance;
    }
    if SupplyAt(c, s).None? {
      return Passed;
    }
    var supplyChanged := SupplyChanged(c, s, changes);
    EffectiveDistinct(c, changes);
    TotalAfterChanges(c, Usei, s, Effective(c, changes));
    TotalAfterChanges(c, Wei, s, Effective(c, changes));
    var weiDiff := wei.value.0 - wei.value.1;
    if weiDiff % ONE_USEI_IN_WEI != 0 {
      return WeiRemainder;
    }
    var useiDiff := usei.value.1 - usei.value.0 - weiDiff / ONE_USEI_IN_WEI + supplyChanged;
    if useiDiff != 0 {
      return UseiMismatch;
    }
    return Passed;
  }

  // ---------------------------------------------------------------- every block since genesis

  /** The stores after each block of a chain. */
  ghost function StoreAt(genesis: Store, blocks: seq<seq<Pair>>, n: nat): Store
    requires n <= |blocks|
  {
    if n == 0 then genesis else Apply(StoreAt(genesis, blocks, n - 1), blocks[n - 1])
  }

  /** Well-formed blocks: one change per key, every new value decodes, the supply stays readable. */
  ghost predicate WellFormedBlocks(c: Codec, genesis: Store, blocks: seq<seq<Pair>>) {
    && SupplyAt(c, genesis).Some?
    && forall n :: 0 <= n < |blocks| ==> DistinctKeys(blocks[n]) && forall p :: p in blocks[n] ==> Readable(c, p)
  }

  lemma {:induction false} SupplyStaysReadable(c: Codec, genesis: Store, blocks: seq<seq<Pair>>, n: nat)
    requires WellFormedBlocks(c, genesis, blocks) && n <= |blocks|
    ensures SupplyAt(c, StoreAt(genesis, blocks, n)).Some?
  {
    if n > 0 {
      SupplyStaysReadable(c, genesis, blocks, n - 1);
      var s, ps := StoreAt(genesis, blocks, n - 1), blocks[n - 1];
      if p :| p in ps && p.key == SupplyOf(c) {
        ChangedKey(s, ps, p);
      } else {
        UntouchedKey(s, ps, SupplyOf(c));
      }
    }
  }

  lemma ConservedByBlock(c: Codec, s: Store, changes: seq<Pair>)
    requires Conserves(c, s, changes) && SupplyAt(c, s).Some? && forall p :: p in changes ==> Readable(c, p)
    ensures Quantity(c, Apply(s, changes)) == Quantity(c, s)
  {
    EffectiveMembers(c, changes);
    hide Quantity, Apply, Effective, Readable, NonNegative;
  }

  /** If the check passes after every block, the quantity never moves from genesis. */
  lemma {:induction false} ConservedFromGenesis(c: Codec, genesis: Store, blocks: seq<seq<Pair>>, n: nat)
    requires WellFormedBlocks(c, genesis, blocks) && n <= |blocks|
    requires forall i :: 0 <= i < n ==> Conserves(c, StoreAt(genesis, blocks, i), blocks[i])
    ensures Quantity(c, StoreAt(genesis, blocks, n)) == Quantity(c, genesis)
  {
    hide Quantity, Apply, Conserves, SupplyAt, DistinctKeys, Readable;
    if n > 0 {
      ConservedFromGenesis(c, genesis, blocks, n - 1);
      SupplyStaysReadable(c, genesis, blocks, n - 1);
      ConservedByBlock(c, StoreAt(genesis, blocks, n - 1), blocks[n - 1]);
    }
  }

  /** And no balance ever becomes negative. */
  lemma {:induction false} NonNegativeFromGenesis(c: Codec, kind: Kind, genesis: Store, blocks: seq<seq<Pair>>,
                                                  n: nat, k: Bytes)
    requires WellFormedBlocks(c, genesis, blocks) && n <= |blocks|
    requires AmountAt(c, kind, genesis, k) >= 0
    requires forall i :: 0 <= i < n ==> Conserves(c, StoreAt(genesis, blocks, i), blocks[i])
    ensures AmountAt(c, kind, StoreAt(genesis, blocks, n), k) >= 0
  {
    hide Quantity, Effective, Readable;
    if n > 0 {
      NonNegativeFromGenesis(c, kind, genesis, blocks, n - 1, k);
      var s, ps := StoreAt(genesis, blocks, n - 1), blocks[n - 1];
      EffectiveMembers(c, ps);
      assert Conserves(c, s, ps) && Effective(c, ps) == ps;
      if p :| p in ps && p.key == k {
        ChangedKey(s, ps, p);
        assert After(c, kind, p) >= 0;
      } else {
        UntouchedKey(s, ps, k);
      }
    }
  }

  // ---------------------------------------------------------------- what the check cannot see

  function Unreadable(c: Codec, ps: seq<Pair>): seq<Pair> {
    if ps == [] then []
    else Unreadable(c, ps[..|ps| - 1]) + if Readable(c, ps[|ps| - 1]) then [] else [ps[|ps| - 1]]
  }

  ghost predicate SupplyUnreadable(c: Codec, ps: seq<Pair>) {
    exists p :: p in ps && p.key == SupplyOf(c) && !Readable(c, p)
  }

  /** What the keys that a block overwrites with unreadable values held before, in wei. */
  ghost function Lost(c: Codec, s: Store, ps: seq<Pair>): int {
    var supply := if SupplyUnreadable(c, ps) && SupplyAt(c, s).Some? then SupplyAt(c, s).value else 0;
    (SumBefore(c, Usei, s, Unreadable(c, ps)) - supply) * ONE_USEI_IN_WEI + SumBefore(c, Wei, s, Unreadable(c, ps))
  }

  lemma {:induction false} SumsSplit(c: Codec, kind: Kind, s: Store, ps: seq<Pair>)
    ensures SumAfter(c, kind, ps) == SumAfter(c, kind, Effective(c, ps))
    ensures SumBefore(c, kind, s, ps) ==
            SumBefore(c, kind, s, Effective(c, ps)) + SumBefore(c, kind, s, Unreadable(c, ps))
  {
    hide *;
    if ps == [] {
      NoSums(c, kind, s);
    } else {
      var front, p := ps[..|ps| - 1], ps[|ps| - 1];
      assert ps == front + [p];
      SumsSplit(c, kind, s, front);
      EffectiveStep(c, front, p);
      UnreadableAfter(c, kind, p);
      SumsAppend(c, kind, s, front, p);
      if Readable(c, p) {
        SumsAppend(c, kind, s, Effective(c, front), p);
      } else {
        SumsAppend(c, kind, s, Unreadable(c, front), p);
      }
    }
  }

  lemma NoSums(c: Codec, kind: Kind, s: Store)
    ensures SumAfter(c, kind, []) == 0 == SumBefore(c, kind, s, []) && Effective(c, []) == [] == Unreadable(c, [])
  {
  }

  lemma EffectiveStep(c: Codec, ps: seq<Pair>, p: Pair)
    ensures Effective(c, ps + [p]) == if Readable(c, p) then Effective(c, ps) + [p] else Effective(c, ps)
    ensures Unreadable(c, ps + [p]) == if Readable(c, p) then Unreadable(c, ps) else Unreadable(c, ps) + [p]
  {
    hide Readable;
    assert (ps + [p])[..|ps|] == ps;
  }

  lemma SumsAppend(c: Codec, kind: Kind, s: Store, ps: seq<Pair>, p: Pair)
    ensures SumAfter(c, kind, ps + [p]) == SumAfter(c, kind, ps) + After(c, kind, p)
    ensures SumBefore(c, kind, s, ps + [p]) == SumBefore(c, kind, s, ps) + AmountAt(c, kind, s, p.key)
  {
    hide AmountAt, After;
    assert (ps + [p])[..|ps|] == ps;
  }

  lemma UnreadableAfter(c: Codec, kind: Kind, p: Pair)
    ensures !Readable(c, p) ==> After(c, kind, p) == 0
  {
  }

  /** The supply the store holds after a block, against the supply the check believes it holds. */
  lemma SupplyAfter(c: Codec, s: Store, ps: seq<Pair>)
    requires DistinctKeys(ps) && SupplyAt(c, s).Some?
    ensures SupplyAt(c, Apply(s, Effective(c, ps))).Some?
    ensures if SupplyUnreadable(c, ps) then
              SupplyAt(c, Apply(s, ps)).None? && SupplyAt(c, Apply(s, Effective(c, ps))) == SupplyAt(c, s)
            else SupplyAt(c, Apply(s, ps)) == SupplyAt(c, Apply(s, Effective(c, ps)))
  {
    hide Effective, Apply;
    EffectiveDistinct(c, ps);
    EffectiveMembers(c, ps);
    if p :| p in ps && p.key == SupplyOf(c) {
      ChangedKey(s, ps, p);
      if Readable(c, p) {
        ChangedKey(s, Effective(c, ps), p);
        OnlyChange(c, ps, p);
      } else {
        OnlyChange(c, ps, p);
        NoSupplyChange(c, s, ps);
      }
    } else {
      UntouchedKey(s, ps, SupplyOf(c));
      NoSupplyChange(c, s, ps);
    }
  }

  lemma OnlyChange(c: Codec, ps: seq<Pair>, p: Pair)
    requires DistinctKeys(ps) && p in ps
    ensures forall q :: q in ps && q.key == p.key ==> q == p
  {
  }

  /** The whole store's quantity after a block is what the check believes less what was lost. */
  lemma QuantityAfter(c: Codec, s: Store, ps: seq<Pair>)
    requires DistinctKeys(ps) && SupplyAt(c, s).Some?
    ensures Quantity(c, Apply(s, ps)) == Quantity(c, Apply(s, Effective(c, ps))) - Lost(c, s, ps)
  {
    hide Total, SumBefore, SumAfter, Effective, Unreadable, Apply, SupplyUnreadable, SupplyAt;
    EffectiveDistinct(c, ps);
    SupplyAfter(c, s, ps);
    TotalAfterChanges(c, Usei, s, ps);
    TotalAfterChanges(c, Wei, s, ps);
    TotalAfterChanges(c, Usei, s, Effective(c, ps));
    TotalAfterChanges(c, Wei, s, Effective(c, ps));
    SumsSplit(c, Usei, s, ps);
    SumsSplit(c, Wei, s, ps);
  }

  /** A block that passes conserves the whole store's quantity exactly when what its unreadable writes
      overwrote nets to zero. */
  lemma PassingConservesExactly(c: Codec, s: Store, ps: seq<Pair>)
    requires DistinctKeys(ps) && SupplyAt(c, s).Some? && Conserves(c, s, ps)
    ensures Quantity(c, Apply(s, ps)) == Quantity(c, s) <==> Lost(c, s, ps) == 0
  {
    hide Quantity, Apply, Effective, Lost, SupplyAt, NonNegative;
    QuantityAfter(c, s, ps);
  }

  ghost function LostUpTo(c: Codec, genesis: Store, blocks: seq<seq<Pair>>, n: nat): int
    requires n <= |blocks|
  {
    if n == 0 then 0 else LostUpTo(c, genesis, blocks, n - 1) + Lost(c, StoreAt(genesis, blocks, n - 1), blocks[n - 1])
  }

  /** While the supply stays readable, the drift from genesis is exactly what was lost: the quantity is
      conserved exactly when that nets to zero. */
  lemma {:induction false} DriftFromGenesis(c: Codec, genesis: Store, blocks: seq<seq<Pair>>, n: nat)
    requires n <= |blocks| && forall i :: 0 <= i < n ==> DistinctKeys(blocks[i])
    requires forall i :: 0 <= i < n ==> SupplyAt(c, StoreAt(genesis, blocks, i)).Some?
    requires forall i :: 0 <= i < n ==> Conserves(c, StoreAt(genesis, blocks, i), blocks[i])
    ensures Quantity(c, StoreAt(genesis, blocks, n)) == Quantity(c, genesis) - LostUpTo(c, genesis, blocks, n)
  {
    hide Quantity, Apply, Effective, Lost, SupplyAt, NonNegative, DistinctKeys;
    if n > 0 {
      DriftFromGenesis(c, genesis, blocks, n - 1);
      QuantityAfter(c, StoreAt(genesis, blocks, n - 1), blocks[n - 1]);
    }
  }

  /** From a block that leaves the supply unreadable until one rewrites it, the check passes exactly
      when no changed balance is negative, whatever the blocks mint or burn. */
  lemma {:induction false} CheckDisabled(c: Codec, genesis: Store, blocks: seq<seq<Pair>>, j: nat, n: nat)
    requires j <= n <= |blocks| && SupplyAt(c, StoreAt(genesis, blocks, j)).None?
    requires forall i :: j <= i < n ==> forall p :: p in blocks[i] ==> p.key != SupplyOf(c)
    ensures SupplyAt(c, StoreAt(genesis, blocks, n)).None?
    ensures forall i :: j <= i < n ==>
              (Conserves(c, StoreAt(genesis, blocks, i), blocks[i]) <==>
               NonNegative(c, Usei, Effective(c, blocks[i])) && NonNegative(c, Wei, Effective(c, blocks[i])))
  {
    hide NonNegative, Effective, Apply, Quantity;
    if j < n {
      CheckDisabled(c, genesis, blocks, j, n - 1);
      UntouchedKey(StoreAt(genesis, blocks, n - 1), blocks[n - 1], SupplyOf(c));
    }
  }

  lemma OneChange(c: Codec, s: Store, p: Pair)
    ensures Apply(s, [p]) == ApplyOne(s, p) && Apply(s, []) == s
    ensures Effective(c, [p]) == if Readable(c, p) then [p] else []
    ensures Unreadable(c, [p]) == if Readable(c, p) then [] else [p]
  {
    hide Readable;
    assert [p][..0] == [];
  }

  /** An unreadable write to the supply passes, and a later block then passes although it mints. */
  lemma MintAfterUnreadableSupply(c: Codec, s: Store, bad: Bytes, k: Bytes, v: Bytes)
    requires SupplyAt(c, s).Some? && c.amount(bad).None? && k !in s
    requires IsUseiKey(c, k) && c.coin(v).Some? && c.coin(v).value > 0
    ensures var s1 := Apply(s, [Set(SupplyOf(c), bad)]);
            && Conserves(c, s, [Set(SupplyOf(c), bad)]) && Conserves(c, s1, [Set(k, v)])
            && Total(c, Usei, Apply(s1, [Set(k, v)])) == Total(c, Usei, s) + c.coin(v).value
  {
    hide Total, Apply, Effective, Unreadable, Quantity;
    var p, q := Set(SupplyOf(c), bad), Set(k, v);
    OneChange(c, s, p);
    OneChange(c, Apply(s, [p]), q);
    TotalStep(c, Usei, s, p);
    TotalStep(c, Usei, Apply(s, [p]), q);
  }

  /** A block that overwrites a balance with an unreadable value passes, though coins vanish. */
  lemma UnreadableChangePasses(c: Codec, s: Store, k: Bytes, bad: Bytes)
    requires SupplyAt(c, s).Some? && IsUseiKey(c, k) && AmountAt(c, Usei, s, k) > 0 && c.coin(bad).None?
    ensures Conserves(c, s, [Set(k, bad)])
    ensures Quantity(c, Apply(s, [Set(k, bad)])) < Quantity(c, s)
  {
    hide Total, Apply, Effective, Unreadable, Quantity, SumBefore;
    var p := Set(k, bad);
    OneChange(c, s, p);
    NoSums(c, Usei, s);
    NoSums(c, Wei, s);
    assert k != SupplyOf(c);
    assert [] + [p] == [p] && AmountAt(c, Wei, s, k) == 0;
    SumsAppend(c, Usei, s, [], p);
    SumsAppend(c, Wei, s, [], p);
    QuantityAfter(c, s, [p]);
  }
}
