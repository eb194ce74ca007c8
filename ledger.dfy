/** The on-chain soil-moisture contract as the hook and the Hardhat tests see it: one
    record per owner address, holding the ciphertext handle and the cleartext it stands
    for. The contract's own source is not part of this model; this abstraction is what
    test/EncryptedSoilMoisture.ts and test/EncryptedSoilMoistureSepolia.ts observe. */
module Ledger {

  import opened Wrappers
  import Text

  /** The stored ciphertext reference (as the getter renders it, 0x-prefixed hex) and the
      value the coprocessor decrypts it to. */
  datatype Entry = Entry(handle: string, value: nat)

  /** The contract's storage: owner address to its latest record. */
  type Store = map<string, Entry>

  /** One `recordSoilMoisture` transaction, sent by `owner`. */
  datatype Write = Write(owner: string, handle: string, value: nat)

  /** The handle the getter returns for an owner that never recorded (bytes32 zero). */
  const ZeroHandle: string := "0x" + Zeros(64)

  function Zeros(n: nat): (r: string)
    ensures |r| == n && forall i :: 0 <= i < n ==> r[i] == '0'
  {
    if n == 0 then "" else "0" + Zeros(n - 1)
  }

  /** A freshly deployed contract holds no record. */
  const Deployed: Store := map[]

  /** `hasInitialized(owner)`. */
  predicate HasInitialized(store: Store, owner: string) {
    owner in store
  }

  /** `getEncryptedSoilMoisture(owner)`: the stored handle, or the zero handle. A caller
      can tell a recorded owner by the handle alone when the store is well formed: a
      non-zero handle means the owner has recorded, and a recorded owner never reads
      the zero handle. */
  function GetHandle(store: Store, owner: string): (h: string)
    ensures owner in store ==> h == store[owner].handle
    ensures owner !in store ==> h == ZeroHandle
    ensures h != ZeroHandle ==> HasInitialized(store, owner)
    ensures WellFormed(store) ==> (h != ZeroHandle <==> HasInitialized(store, owner))
  {
    if owner in store then store[owner].handle else ZeroHandle
  }

  /** `recordSoilMoisture` from `w.owner`: the new record replaces any earlier one. */
  function Apply(store: Store, w: Write): (r: Store)
    ensures r.Keys == store.Keys + {w.owner}
    ensures r[w.owner] == Entry(w.handle, w.value)
    ensures forall a :: a in store && a != w.owner ==> r[a] == store[a]
  {
    store[w.owner := Entry(w.handle, w.value)]
  }

  /** A sequence of transactions, in order. */
  function ApplyAll(store: Store, ws: seq<Write>): Store
    decreases |ws|
  {
    if ws == [] then store else ApplyAll(Apply(store, ws[0]), ws[1..])
  }

  /** No transaction after position `i` is sent by `owner`. */
  predicate NoneAfter(ws: seq<Write>, owner: string, i: nat) {
    forall j :: i < j < |ws| ==> ws[j].owner != owner
  }

  /** The last transaction of `owner` in `ws`, if any. */
  function LastBy(ws: seq<Write>, owner: string): (r: Option<Write>)
    ensures r.Some? ==> r.value in ws && r.value.owner == owner
    ensures r.Some? ==> exists i :: 0 <= i < |ws| && ws[i] == r.value && NoneAfter(ws, owner, i)
    ensures r.None? ==> forall w :: w in ws ==> w.owner != owner
    decreases |ws|
  {
    if ws == [] then None
    else if ws[|ws| - 1].owner == owner then Some(ws[|ws| - 1])
    else
      var r := LastBy(ws[..|ws| - 1], owner);
      assert r.Some? ==> exists i :: 0 <= i < |ws| - 1 && ws[i] == r.value && NoneAfter(ws, owner, i);
      r
  }

  /** Whatever the interleaving of owners, each owner's record is that owner's latest
      transaction, and an owner without transactions keeps what it had: records
      overwrite, and owners are isolated from one another. */
  lemma {:induction false} ApplyAllKeepsLatest(store: Store, ws: seq<Write>, owner: string)
    ensures var r := ApplyAll(store, ws);
      match LastBy(ws, owner)
      case Some(w) => owner in r && r[owner] == Entry(w.handle, w.value)
      case None => (owner in r <==> owner in store) && (owner in store ==> r[owner] == store[owner])
    decreases |ws|
  {
    if ws != [] {
      var init, last := ws[..|ws| - 1], ws[|ws| - 1];
      assert ws == init + [last];
      ApplyAllSnoc(store, init, last);
      ApplyAllKeepsLatest(store, init, owner);
    }
  }

  /** Applying a sequence and then one more transaction is applying the longer sequence. */
  lemma {:induction false} ApplyAllSnoc(store: Store, ws: seq<Write>, w: Write)
    ensures ApplyAll(store, ws + [w]) == Apply(ApplyAll(store, ws), w)
    decreases |ws|
  {
    if ws == [] {
      assert ApplyAll(Apply(store, w), []) == Apply(store, w);
    } else {
      assert (ws + [w])[1..] == ws[1..] + [w];
      ApplyAllSnoc(Apply(store, ws[0]), ws[1..], w);
    }
  }

  /** A fresh deployment reports every owner uninitialised and returns the zero handle. */
  lemma FreshDeploymentIsEmpty(owner: string)
    ensures !HasInitialized(Deployed, owner) && GetHandle(Deployed, owner) == ZeroHandle
  {
  }

  /** Two successive records by the same owner leave only the second one readable. */
  lemma SecondRecordOverwrites(store: Store, owner: string, h1: string, v1: nat, h2: string, v2: nat)
    ensures var r := ApplyAll(store, [Write(owner, h1, v1), Write(owner, h2, v2)]);
      HasInitialized(r, owner) && r[owner] == Entry(h2, v2)
  {
    ApplyAllKeepsLatest(store, [Write(owner, h1, v1), Write(owner, h2, v2)], owner);
  }

  /** Records by two different owners do not disturb each other. */
  lemma OwnersAreIsolated(store: Store, a: string, ha: string, va: nat, b: string, hb: string, vb: nat)
    requires a != b
    ensures var r := ApplyAll(store, [Write(a, ha, va), Write(b, hb, vb)]);
      a in r && b in r && r[a] == Entry(ha, va) && r[b] == Entry(hb, vb)
  {
    ApplyAllKeepsLatest(store, [Write(a, ha, va), Write(b, hb, vb)], a);
    ApplyAllKeepsLatest(store, [Write(a, ha, va), Write(b, hb, vb)], b);
  }

  /** A handle as the contract produces it: "0x", then 64 lower-case hex digits, not all
      zero (a record never stores the zero handle). */
  predicate WellFormedHandle(h: string) {
    |h| == 66 && Text.StartsWith(h, "0x")
    && (forall i :: 2 <= i < 66 ==> h[i] in "0123456789abcdef")
    && h != ZeroHandle
  }

  /** Every stored handle is well formed. */
  predicate WellFormed(store: Store) {
    forall a :: a in store ==> WellFormedHandle(store[a].handle)
  }

  /** Recording well-formed handles keeps the store well formed, so after a record the
      getter returns a non-zero handle of 66 characters. */
  lemma {:induction false} ApplyAllWellFormed(store: Store, ws: seq<Write>)
    requires WellFormed(store)
    requires forall w :: w in ws ==> WellFormedHandle(w.handle)
    ensures WellFormed(ApplyAll(store, ws))
    decreases |ws|
  {
    if ws != [] {
      assert ws[0] in ws;
      assert forall w :: w in ws[1..] ==> w in ws;
      ApplyAllWellFormed(Apply(store, ws[0]), ws[1..]);
    }
  }

  /** In a well-formed store a recorded owner's handle is never the zero handle. */
  lemma RecordedHandleIsNonZero(store: Store, owner: string)
    requires WellFormed(store) && HasInitialized(store, owner)
    ensures GetHandle(store, owner) != ZeroHandle && |GetHandle(store, owner)| == 66
  {
  }

  /** Round trip through the getter: after any sequence of records on a fresh
      deployment, the getter returns the handle of the owner's latest record, or the
      zero handle when the owner sent none. */
  lemma GetHandleAfterRecords(ws: seq<Write>, owner: string)
    ensures var h := GetHandle(ApplyAll(Deployed, ws), owner);
      match LastBy(ws, owner)
      case Some(w) => h == w.handle
      case None => h == ZeroHandle
  {
    ApplyAllKeepsLatest(Deployed, ws, owner);
  }
}
