/**
 Token locks as the distributed lock offers them: `acquire` writes a fresh token under a
 free key, `release` deletes the key only while it still holds the caller's token, a key
 may expire at any moment, and a release may get lost. A table also records which
 process holds which token, so that ownership and exclusion can be stated once for every
 kind of key.
 */
module LockTable {
  datatype Hold<K> = Free | Held(key: K, token: nat)

  /** `lost` are the tokens whose release never reached the store. */
  datatype Table<K> = Table(locks: map<K, nat>, holds: seq<Hold<K>>, lost: set<nat>)

  function Released<K>(locks: map<K, nat>, key: K, token: nat): map<K, nat>
  {
    if key in locks && locks[key] == token then locks - {key} else locks
  }

  ghost predicate TokensOk<K>(t: Table<K>, next: nat)
  {
    && (forall p :: 0 <= p < |t.holds| && t.holds[p].Held? ==>
          t.holds[p].token < next && t.holds[p].token !in t.lost)
    && (forall p, q :: 0 <= p < q < |t.holds| && t.holds[p].Held? && t.holds[q].Held? ==>
          t.holds[p].token != t.holds[q].token)
    && (forall x :: x in t.lost ==> x < next)
  }

  /** The entry under `key` belongs to a process that still holds it, or its release was lost. */
  ghost predicate Owned<K>(t: Table<K>, key: K)
    requires key in t.locks
  {
    t.locks[key] in t.lost || Held(key, t.locks[key]) in t.holds
  }

  ghost predicate Ok<K>(t: Table<K>, next: nat)
  {
    TokensOk(t, next) && forall key :: key in t.locks ==> t.locks[key] < next && Owned(t, key)
  }

  /** Outside `exempt`, whoever believes to hold a lock really has it. */
  ghost predicate Guarded<K>(t: Table<K>, exempt: set<K>)
  {
    forall p :: 0 <= p < |t.holds| && t.holds[p].Held? && t.holds[p].key !in exempt ==>
      t.holds[p].key in t.locks && t.locks[t.holds[p].key] == t.holds[p].token
  }

  function Taken<K>(t: Table<K>, p: nat, key: K, token: nat): Table<K>
    requires p < |t.holds|
  {
    Table(t.locks[key := token], t.holds[p := Held(key, token)], t.lost)
  }

  function Freed<K>(t: Table<K>, p: nat): Table<K>
    requires p < |t.holds| && t.holds[p].Held?
  {
    Table(Released(t.locks, t.holds[p].key, t.holds[p].token), t.holds[p := Free], t.lost)
  }

  function LostRelease<K>(t: Table<K>, p: nat): Table<K>
    requires p < |t.holds| && t.holds[p].Held?
  {
    Table(t.locks, t.holds[p := Free], t.lost + {t.holds[p].token})
  }

  function Expired<K>(t: Table<K>, key: K): Table<K>
  {
    Table(t.locks - {key}, t.holds, t.lost)
  }

  lemma StillIn<T>(xs: seq<T>, p: nat, y: T, x: T)
    requires p < |xs| && x in xs && x != xs[p]
    ensures x in xs[p := y]
  {
    var q :| 0 <= q < |xs| && xs[q] == x;
    assert xs[p := y][q] == x;
  }

  /** No two processes hold one key, wherever the table is guarded. */
  lemma Exclusive<K>(t: Table<K>, next: nat, exempt: set<K>, p: nat, q: nat)
    requires TokensOk(t, next) && Guarded(t, exempt)
    requires p < |t.holds| && q < |t.holds| && p != q
    requires t.holds[p].Held? && t.holds[q].Held? && t.holds[p].key !in exempt
    ensures t.holds[p].key != t.holds[q].key
  {
    var i, j := if p < q then p else q, if p < q then q else p;
    assert t.holds[i].token != t.holds[j].token;
  }

  lemma TakeOk<K>(t: Table<K>, next: nat, exempt: set<K>, p: nat, key: K)
    requires Ok(t, next) && p < |t.holds| && t.holds[p].Free? && key !in t.locks
    ensures Ok(Taken(t, p, key, next), next + 1)
    ensures Guarded(t, exempt) ==> Guarded(Taken(t, p, key, next), exempt)
  {
    var t' := Taken(t, p, key, next);
    assert t'.holds[p] == Held(key, next);
    forall k | k in t'.locks ensures t'.locks[k] < next + 1 && Owned(t', k)
    {
      if k != key && t.locks[k] !in t.lost { StillIn(t.holds, p, Held(key, next), Held(k, t.locks[k])); }
    }
  }

  lemma FreeOk<K>(t: Table<K>, next: nat, exempt: set<K>, p: nat)
    requires Ok(t, next) && p < |t.holds| && t.holds[p].Held?
    ensures Ok(Freed(t, p), next)
    ensures Guarded(t, exempt) ==> Guarded(Freed(t, p), exempt)
  {
    var t' := Freed(t, p);
    forall k | k in t'.locks ensures t'.locks[k] < next && Owned(t', k)
    {
      if t.locks[k] !in t.lost { StillIn(t.holds, p, Free, Held(k, t.locks[k])); }
    }
    if Guarded(t, exempt) {
      forall q | 0 <= q < |t.holds| && q != p && t.holds[q].Held? && t.holds[q].key !in exempt
        ensures t.holds[q].key in t'.locks && t'.locks[t.holds[q].key] == t.holds[q].token
      {
        Exclusive(t, next, exempt, q, p);
      }
    }
  }

  lemma LoseOk<K>(t: Table<K>, next: nat, exempt: set<K>, p: nat)
    requires Ok(t, next) && p < |t.holds| && t.holds[p].Held?
    ensures Ok(LostRelease(t, p), next)
    ensures Guarded(t, exempt) ==> Guarded(LostRelease(t, p), exempt)
  {
    var t' := LostRelease(t, p);
    forall q | 0 <= q < |t.holds| && q != p && t.holds[q].Held? ensures t.holds[q].token !in t'.lost
    {
      var i, j := if p < q then p else q, if p < q then q else p;
      assert t.holds[i].token != t.holds[j].token;
    }
    forall k | k in t'.locks ensures t'.locks[k] < next && Owned(t', k)
    {
      if t.locks[k] !in t'.lost { StillIn(t.holds, p, Free, Held(k, t.locks[k])); }
    }
  }

  /** An expiring key leaves the table guarded once it is exempt; a key whose release was
      lost protects nobody, so its expiry needs no exemption. */
  lemma ExpireOk<K>(t: Table<K>, next: nat, exempt: set<K>, key: K)
    requires Ok(t, next)
    ensures Ok(Expired(t, key), next)
    ensures Guarded(t, exempt) ==> Guarded(Expired(t, key), exempt + {key})
    ensures Guarded(t, exempt) && key in t.locks && t.locks[key] in t.lost ==> Guarded(Expired(t, key), exempt)
  {
  }

  lemma JoinOk<K>(t: Table<K>, next: nat, exempt: set<K>)
    requires Ok(t, next)
    ensures Ok(t.(holds := t.holds + [Free]), next)
    ensures Guarded(t, exempt) ==> Guarded(t.(holds := t.holds + [Free]), exempt)
  {
    var t' := t.(holds := t.holds + [Free]);
    forall k | k in t'.locks ensures Owned(t', k)
    {
      assert Owned(t, k);
    }
  }
}
