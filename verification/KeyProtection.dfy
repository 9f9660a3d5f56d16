/**
 The two private-key files and the passphrase that may protect them (client/key_store.cpp).

 A protected file opens under the passphrase and the label it was made with, and under nothing else. Each file is
 replaced atomically; the two are written one after the other, and the program may die, or a write may fail, between.
 */
module KeyProtection {
  import opened Wire

  const MIN_PASSPHRASE := 8

  datatype Label = KemLabel | DsaLabel
  datatype File = Missing | Plain(key: Bytes) | Protected(secret: Bytes, passphrase: Bytes, of: Label)

  // What the keys must measure.
  datatype Sizes = Sizes(kem: nat, dsa: nat)

  datatype Keys = Keys(kem: File, dsa: File, cacheKem: Bytes, cacheDsa: Bytes)

  datatype Result = Yes | No | Throws

  // unprotect_secret
  function Opened(f: File, passphrase: Bytes, of: Label): Option<Bytes> {
    match f
    case Missing => None
    case Plain(key) => Some(key)
    case Protected(secret, p, l) => if passphrase != [] && p == passphrase && l == of then Some(secret) else None
  }

  // load_private: the file itself, or the copy in memory if the file is protected.
  function Loaded(f: File, cache: Bytes): Bytes {
    match f
    case Missing => []
    case Plain(key) => key
    case Protected(_, _, _) => cache
  }

  // How far a pair of writes got, and whether the program died there.
  datatype Fate = Fate(writes: nat, dies: bool)

  function Written(k: Keys, kem: File, dsa: File, fate: Fate): Keys {
    k.(kem := if fate.writes >= 1 then kem else k.kem, dsa := if fate.writes >= 2 then dsa else k.dsa)
  }

  function Died(k: Keys, fate: Fate): Keys {
    if fate.dies then k.(cacheKem := [], cacheDsa := []) else k
  }

  // read_private_keys: the KEM file first.
  function ReadBoth(sizes: Sizes, k: Keys, passphrase: Bytes): (Result, Bytes, Bytes) {
    if k.kem.Missing? then (Throws, [], [])
    else
      var kem := Opened(k.kem, passphrase, KemLabel);
      if kem.None? then (No, [], [])
      else if |kem.value| != sizes.kem || k.dsa.Missing? then (Throws, [], [])
      else
        var dsa := Opened(k.dsa, passphrase, DsaLabel);
        if dsa.None? then (No, [], [])
        else if |dsa.value| != sizes.dsa then (Throws, [], [])
        else (Yes, kem.value, dsa.value)
  }

  predicate Mixed(k: Keys) {
    k.kem.Protected? != k.dsa.Protected?
  }

  function Unlock(sizes: Sizes, k: Keys, passphrase: Bytes, fate: Fate): (Keys, Result) {
    if passphrase == [] then (k, No)
    else
      var (r, kem, dsa) := ReadBoth(sizes, k, passphrase);
      if r != Yes then (k, r)
      else
        var cached := k.(cacheKem := kem, cacheDsa := dsa);
        if !Mixed(k) then (cached, Yes)
        else
          (Died(Written(cached, Protected(kem, passphrase, KemLabel), Protected(dsa, passphrase, DsaLabel), fate), fate),
           if fate.writes >= 2 then Yes else Throws)
  }

  predicate Loadable(sizes: Sizes, k: Keys) {
    |Loaded(k.kem, k.cacheKem)| == sizes.kem && |Loaded(k.dsa, k.cacheDsa)| == sizes.dsa
  }

  function SetPassphrase(sizes: Sizes, k: Keys, passphrase: Bytes, fate: Fate): (Keys, Result) {
    if |passphrase| < MIN_PASSPHRASE || !Loadable(sizes, k) then (k, Throws)
    else
      var kem, dsa := Loaded(k.kem, k.cacheKem), Loaded(k.dsa, k.cacheDsa);
      var w := Written(k, Protected(kem, passphrase, KemLabel), Protected(dsa, passphrase, DsaLabel), fate);
      if fate.writes < 2 then (Died(w, fate), Throws)
      else (Died(w.(cacheKem := kem, cacheDsa := dsa), fate), Yes)
  }

  function RemovePassphrase(sizes: Sizes, k: Keys, fate: Fate): (Keys, Result) {
    if !Loadable(sizes, k) then (k, Throws)
    else
      var w := Written(k, Plain(Loaded(k.kem, k.cacheKem)), Plain(Loaded(k.dsa, k.cacheDsa)), fate);
      if fate.writes < 2 then (Died(w, fate), Throws)
      else (w.(cacheKem := [], cacheDsa := []), Yes)
  }

  // ---- Any history of one passphrase ----

  datatype Action =
    | TryUnlock(attempt: Bytes, fate: Fate)
    | Protect(fate: Fate)
    | Unprotect(fate: Fate)
    | Restart

  function Do(sizes: Sizes, k: Keys, passphrase: Bytes, a: Action): Keys {
    match a
    case TryUnlock(attempt, fate) => Unlock(sizes, k, attempt, fate).0
    case Protect(fate) => SetPassphrase(sizes, k, passphrase, fate).0
    case Unprotect(fate) => RemovePassphrase(sizes, k, fate).0
    case Restart => k.(cacheKem := [], cacheDsa := [])
  }

  function Run(sizes: Sizes, k: Keys, passphrase: Bytes, actions: seq<Action>): Keys
    decreases |actions|
  {
    if actions == [] then k else Run(sizes, Do(sizes, k, passphrase, actions[0]), passphrase, actions[1..])
  }

  // The file holds this key, bare or under this passphrase.
  predicate Holds(f: File, key: Bytes, passphrase: Bytes, of: Label) {
    f == Plain(key) || f == Protected(key, passphrase, of)
  }

  predicate Intact(sizes: Sizes, k: Keys, kem: Bytes, dsa: Bytes, passphrase: Bytes) {
    && |kem| == sizes.kem && |dsa| == sizes.dsa && 0 < sizes.kem && 0 < sizes.dsa
    && Holds(k.kem, kem, passphrase, KemLabel) && Holds(k.dsa, dsa, passphrase, DsaLabel)
    && (k.cacheKem == [] || k.cacheKem == kem) && (k.cacheDsa == [] || k.cacheDsa == dsa)
  }

  lemma ReadIntact(sizes: Sizes, k: Keys, kem: Bytes, dsa: Bytes, passphrase: Bytes, attempt: Bytes)
    requires Intact(sizes, k, kem, dsa, passphrase) && attempt != []
    ensures var r := ReadBoth(sizes, k, attempt);
            && (r.0 == Yes ==> r.1 == kem && r.2 == dsa && (k.kem.Protected? || k.dsa.Protected? ==> attempt == passphrase))
            && r.0 != Throws
  {
  }

  // Unlocking, whatever is typed: a wrong passphrase changes nothing.
  lemma UnlockIntact(sizes: Sizes, k: Keys, kem: Bytes, dsa: Bytes, passphrase: Bytes, attempt: Bytes, fate: Fate)
    requires Intact(sizes, k, kem, dsa, passphrase)
    ensures Intact(sizes, Unlock(sizes, k, attempt, fate).0, kem, dsa, passphrase)
  {
    hide ReadBoth;
    if attempt != [] { ReadIntact(sizes, k, kem, dsa, passphrase, attempt); }
  }

  lemma LoadedIntact(sizes: Sizes, k: Keys, kem: Bytes, dsa: Bytes, passphrase: Bytes)
    requires Intact(sizes, k, kem, dsa, passphrase) && Loadable(sizes, k)
    ensures Loaded(k.kem, k.cacheKem) == kem && Loaded(k.dsa, k.cacheDsa) == dsa
  {
  }

  lemma ProtectIntact(sizes: Sizes, k: Keys, kem: Bytes, dsa: Bytes, passphrase: Bytes, fate: Fate)
    requires Intact(sizes, k, kem, dsa, passphrase)
    ensures Intact(sizes, SetPassphrase(sizes, k, passphrase, fate).0, kem, dsa, passphrase)
  {
    hide Loadable, Loaded;
    if Loadable(sizes, k) { LoadedIntact(sizes, k, kem, dsa, passphrase); }
  }

  lemma UnprotectIntact(sizes: Sizes, k: Keys, kem: Bytes, dsa: Bytes, passphrase: Bytes, fate: Fate)
    requires Intact(sizes, k, kem, dsa, passphrase)
    ensures Intact(sizes, RemovePassphrase(sizes, k, fate).0, kem, dsa, passphrase)
  {
    hide Loadable, Loaded;
    if Loadable(sizes, k) { LoadedIntact(sizes, k, kem, dsa, passphrase); }
  }

  lemma StepIntact(sizes: Sizes, k: Keys, kem: Bytes, dsa: Bytes, passphrase: Bytes, a: Action)
    requires Intact(sizes, k, kem, dsa, passphrase)
    ensures Intact(sizes, Do(sizes, k, passphrase, a), kem, dsa, passphrase)
  {
    hide Unlock, SetPassphrase, RemovePassphrase;
    match a
    case TryUnlock(attempt, fate) => UnlockIntact(sizes, k, kem, dsa, passphrase, attempt, fate);
    case Protect(fate) => ProtectIntact(sizes, k, kem, dsa, passphrase, fate);
    case Unprotect(fate) => UnprotectIntact(sizes, k, kem, dsa, passphrase, fate);
    case Restart =>
  }

  lemma {:induction false} RunIntact(sizes: Sizes, k: Keys, kem: Bytes, dsa: Bytes, passphrase: Bytes, actions: seq<Action>)
    requires Intact(sizes, k, kem, dsa, passphrase)
    ensures Intact(sizes, Run(sizes, k, passphrase, actions), kem, dsa, passphrase)
    decreases |actions|
  {
    if actions != [] {
      hide Intact, Do;
      StepIntact(sizes, k, kem, dsa, passphrase, actions[0]);
      RunIntact(sizes, Do(sizes, k, passphrase, actions[0]), kem, dsa, passphrase, actions[1..]);
    }
  }

  lemma UnlockRecovers(sizes: Sizes, k: Keys, kem: Bytes, dsa: Bytes, passphrase: Bytes)
    requires Intact(sizes, k, kem, dsa, passphrase) && passphrase != []
    ensures var (k', r) := Unlock(sizes, k, passphrase, Fate(2, false));
            && r == Yes && k'.cacheKem == kem && k'.cacheDsa == dsa
            && Opened(k'.kem, passphrase, KemLabel) == Some(kem) && Opened(k'.dsa, passphrase, DsaLabel) == Some(dsa)
            && (k.kem.Protected? || k.dsa.Protected? ==> k'.kem.Protected? && k'.dsa.Protected?)
            && !Mixed(k')
  {
  }

  // From bare keys, after any number of protecting, unprotecting and unlocking attempts with any of them cut short at
  // any write, unlocking with the passphrase gives both original keys back and leaves both files as one kind.
  lemma AlwaysRecoverable(sizes: Sizes, kem: Bytes, dsa: Bytes, passphrase: Bytes, actions: seq<Action>)
    requires |kem| == sizes.kem > 0 && |dsa| == sizes.dsa > 0 && |passphrase| >= MIN_PASSPHRASE
    ensures var k := Run(sizes, Keys(Plain(kem), Plain(dsa), [], []), passphrase, actions);
            var (k', r) := Unlock(sizes, k, passphrase, Fate(2, false));
            && r == Yes && k'.cacheKem == kem && k'.cacheDsa == dsa
            && Opened(k'.kem, passphrase, KemLabel) == Some(kem) && Opened(k'.dsa, passphrase, DsaLabel) == Some(dsa)
            && (k.kem.Protected? || k.dsa.Protected? ==> k'.kem.Protected? && k'.dsa.Protected?)
            && !Mixed(k')
  {
    hide Run, Unlock;
    RunIntact(sizes, Keys(Plain(kem), Plain(dsa), [], []), kem, dsa, passphrase, actions);
    UnlockRecovers(sizes, Run(sizes, Keys(Plain(kem), Plain(dsa), [], []), passphrase, actions), kem, dsa, passphrase);
  }

  // ---- What each call does, seen from the files ----

  // The file gives this key under this passphrase and label, and nothing under any other.
  ghost predicate OnlyOpens(f: File, passphrase: Bytes, of: Label, key: Bytes) {
    forall p, l :: Opened(f, p, l) == if p == passphrase && l == of then Some(key) else None
  }

  lemma ProtectedOnlyOpens(f: File, passphrase: Bytes, of: Label, key: Bytes)
    requires passphrase != []
    ensures OnlyOpens(f, passphrase, of, key) <==> f == Protected(key, passphrase, of)
  {
    if OnlyOpens(f, passphrase, of, key) {
      assert Opened(f, passphrase, of) == Some(key) && Opened(f, [], of) == None;
    }
  }

  // Setting a passphrase succeeds exactly for a long enough one, with both keys at hand and both writes done. Then each
  // file opens under it and its own label, to the key loaded before, and under nothing else, and the session stays
  // unlocked; a refusal changes nothing.
  lemma SetProtects(sizes: Sizes, k: Keys, passphrase: Bytes, fate: Fate)
    ensures var (k', r) := SetPassphrase(sizes, k, passphrase, fate);
            && (r == Yes <==> MIN_PASSPHRASE <= |passphrase| && Loadable(sizes, k) && 2 <= fate.writes)
            && (r == Yes ==> OnlyOpens(k'.kem, passphrase, KemLabel, Loaded(k.kem, k.cacheKem)) && OnlyOpens(k'.dsa, passphrase, DsaLabel, Loaded(k.dsa, k.cacheDsa)))
            && (r == Yes && !fate.dies ==> Loaded(k'.kem, k'.cacheKem) == Loaded(k.kem, k.cacheKem) && Loaded(k'.dsa, k'.cacheDsa) == Loaded(k.dsa, k.cacheDsa))
            && (|passphrase| < MIN_PASSPHRASE || !Loadable(sizes, k) ==> k' == k)
  {
  }

  // Removing it succeeds exactly with both keys at hand and both writes done, and leaves both bare and nothing in memory.
  lemma RemoveBares(sizes: Sizes, k: Keys, fate: Fate)
    ensures var (k', r) := RemovePassphrase(sizes, k, fate);
            && (r == Yes <==> Loadable(sizes, k) && 2 <= fate.writes)
            && (r == Yes ==> k' == Keys(Plain(Loaded(k.kem, k.cacheKem)), Plain(Loaded(k.dsa, k.cacheDsa)), [], []))
            && (!Loadable(sizes, k) ==> k' == k)
  {
  }

  predicate BothOpen(sizes: Sizes, k: Keys, passphrase: Bytes) {
    && Opened(k.kem, passphrase, KemLabel).Some? && |Opened(k.kem, passphrase, KemLabel).value| == sizes.kem
    && Opened(k.dsa, passphrase, DsaLabel).Some? && |Opened(k.dsa, passphrase, DsaLabel).value| == sizes.dsa
  }

  // Unlocking succeeds exactly when both files open to keys of the right size, and an interrupted protection could be
  // finished. Then those keys are at hand, and if either file was protected, both now are, under this passphrase alone.
  // A wrong passphrase changes nothing.
  lemma UnlockExactly(sizes: Sizes, k: Keys, passphrase: Bytes, fate: Fate)
    ensures var (k', r) := Unlock(sizes, k, passphrase, fate);
            && (r == Yes <==> passphrase != [] && BothOpen(sizes, k, passphrase) && (Mixed(k) ==> 2 <= fate.writes))
            && (r == Yes && !(Mixed(k) && fate.dies) ==>
                  Loaded(k'.kem, k'.cacheKem) == Opened(k.kem, passphrase, KemLabel).value && Loaded(k'.dsa, k'.cacheDsa) == Opened(k.dsa, passphrase, DsaLabel).value)
            && (r == Yes && (k.kem.Protected? || k.dsa.Protected?) ==>
                  && OnlyOpens(k'.kem, passphrase, KemLabel, Opened(k.kem, passphrase, KemLabel).value)
                  && OnlyOpens(k'.dsa, passphrase, DsaLabel, Opened(k.dsa, passphrase, DsaLabel).value))
            && (r == No ==> k' == k)
  {
  }

  // Both files are closed to everything but this passphrase.
  ghost predicate Shut(k: Keys, kem: Bytes, dsa: Bytes, passphrase: Bytes) {
    OnlyOpens(k.kem, passphrase, KemLabel, kem) && OnlyOpens(k.dsa, passphrase, DsaLabel, dsa)
  }

  lemma StepStaysShut(sizes: Sizes, k: Keys, kem: Bytes, dsa: Bytes, passphrase: Bytes, a: Action)
    requires Intact(sizes, k, kem, dsa, passphrase) && Shut(k, kem, dsa, passphrase) && passphrase != [] && !a.Unprotect?
    ensures Shut(Do(sizes, k, passphrase, a), kem, dsa, passphrase)
  {
    hide OnlyOpens;
    ProtectedOnlyOpens(k.kem, passphrase, KemLabel, kem);
    ProtectedOnlyOpens(k.dsa, passphrase, DsaLabel, dsa);
    var k' := Do(sizes, k, passphrase, a);
    if a.Protect? && Loadable(sizes, k) { LoadedIntact(sizes, k, kem, dsa, passphrase); }
    ProtectedOnlyOpens(k'.kem, passphrase, KemLabel, kem);
    ProtectedOnlyOpens(k'.dsa, passphrase, DsaLabel, dsa);
  }

  lemma {:induction false} RunStaysShut(sizes: Sizes, k: Keys, kem: Bytes, dsa: Bytes, passphrase: Bytes, actions: seq<Action>)
    requires Intact(sizes, k, kem, dsa, passphrase) && Shut(k, kem, dsa, passphrase) && passphrase != []
    requires forall i :: 0 <= i < |actions| ==> !actions[i].Unprotect?
    ensures Shut(Run(sizes, k, passphrase, actions), kem, dsa, passphrase)
    decreases |actions|
  {
    if actions != [] {
      hide Intact, Do, Shut;
      StepIntact(sizes, k, kem, dsa, passphrase, actions[0]);
      StepStaysShut(sizes, k, kem, dsa, passphrase, actions[0]);
      RunStaysShut(sizes, Do(sizes, k, passphrase, actions[0]), kem, dsa, passphrase, actions[1..]);
    }
  }

  // From bare keys, after any history, once setting the passphrase has answered Yes, both files stay closed to every other
  // passphrase through anything but its removal, and no other passphrase unlocks them.
  lemma ProtectedStaysShut(sizes: Sizes, kem: Bytes, dsa: Bytes, passphrase: Bytes, before: seq<Action>, fate: Fate, after: seq<Action>, attempt: Bytes)
    requires |kem| == sizes.kem > 0 && |dsa| == sizes.dsa > 0
    requires SetPassphrase(sizes, Run(sizes, Keys(Plain(kem), Plain(dsa), [], []), passphrase, before), passphrase, fate).1 == Yes
    requires forall i :: 0 <= i < |after| ==> !after[i].Unprotect?
    ensures var k := Run(sizes, Keys(Plain(kem), Plain(dsa), [], []), passphrase, before + [Protect(fate)] + after);
            Shut(k, kem, dsa, passphrase) && (Unlock(sizes, k, attempt, Fate(2, false)).1 == Yes <==> attempt == passphrase)
  {
    hide Run, SetPassphrase, Unlock;
    var k0 := Keys(Plain(kem), Plain(dsa), [], []);
    RunIntact(sizes, k0, kem, dsa, passphrase, before);
    var k1 := Run(sizes, k0, passphrase, before);
    SetProtects(sizes, k1, passphrase, fate);
    LoadedIntact(sizes, k1, kem, dsa, passphrase);
    StepIntact(sizes, k1, kem, dsa, passphrase, Protect(fate));
    var k2 := Do(sizes, k1, passphrase, Protect(fate));
    RunStaysShut(sizes, k2, kem, dsa, passphrase, after);
    RunTwice(sizes, k0, passphrase, before, [Protect(fate)] + after);
    assert before + ([Protect(fate)] + after) == before + [Protect(fate)] + after;
    RunTwice(sizes, k1, passphrase, [Protect(fate)], after);
    RunOnce(sizes, k1, passphrase, Protect(fate));
    UnlockExactly(sizes, Run(sizes, k2, passphrase, after), attempt, Fate(2, false));
    ShutOpens(sizes, Run(sizes, k2, passphrase, after), kem, dsa, passphrase, attempt);
  }

  lemma ShutOpens(sizes: Sizes, k: Keys, kem: Bytes, dsa: Bytes, passphrase: Bytes, attempt: Bytes)
    requires Shut(k, kem, dsa, passphrase) && |kem| == sizes.kem && |dsa| == sizes.dsa
    ensures BothOpen(sizes, k, attempt) <==> attempt == passphrase
  {
  }

  lemma RunOnce(sizes: Sizes, k: Keys, passphrase: Bytes, a: Action)
    ensures Run(sizes, k, passphrase, [a]) == Do(sizes, k, passphrase, a)
  {
    hide Do;
    assert [a][1..] == [] && Run(sizes, k, passphrase, [a]) == Run(sizes, Do(sizes, k, passphrase, a), passphrase, []);
  }

  lemma {:induction false} RunTwice(sizes: Sizes, k: Keys, passphrase: Bytes, first: seq<Action>, rest: seq<Action>)
    ensures Run(sizes, k, passphrase, first + rest) == Run(sizes, Run(sizes, k, passphrase, first), passphrase, rest)
    decreases |first|
  {
    hide Do;
    if first == [] {
      assert first + rest == rest;
    } else {
      assert (first + rest)[1..] == first[1..] + rest;
      RunTwice(sizes, Do(sizes, k, passphrase, first[0]), passphrase, first[1..], rest);
    }
  }

  // ---- Changing the passphrase ----

  // Replacing one passphrase by another: some passphrase still opens both files exactly when the change did not stop
  // between the two writes, or was no change.
  lemma ChangeCutShort(sizes: Sizes, kem: Bytes, dsa: Bytes, from: Bytes, to: Bytes, writes: nat)
    requires |kem| == sizes.kem > 0 && |dsa| == sizes.dsa > 0 && |from| >= MIN_PASSPHRASE && |to| >= MIN_PASSPHRASE
    ensures var k := Keys(Protected(kem, from, KemLabel), Protected(dsa, from, DsaLabel), kem, dsa);
            var k' := SetPassphrase(sizes, k, to, Fate(writes, true)).0;
            (exists p :: Unlock(sizes, k', p, Fate(2, false)).1 == Yes) <==> writes != 1 || from == to
  {
    var k := Keys(Protected(kem, from, KemLabel), Protected(dsa, from, DsaLabel), kem, dsa);
    var k' := SetPassphrase(sizes, k, to, Fate(writes, true)).0;
    if writes != 1 || from == to {
      assert Unlock(sizes, k', if writes == 0 then from else to, Fate(2, false)).1 == Yes;
    } else {
      forall p ensures Unlock(sizes, k', p, Fate(2, false)).1 == No {}
    }
  }

  // ---- The store ----

  class KeyStore {
    const sizes: Sizes
    var kem: File
    var dsa: File
    var cacheKem: Bytes
    var cacheDsa: Bytes

    ghost function Value(): Keys
      reads this
    {
      Keys(kem, dsa, cacheKem, cacheDsa)
    }

    constructor (sizes: Sizes, kem: File, dsa: File)
      ensures this.sizes == sizes && Value() == Keys(kem, dsa, [], [])
    {
      this.sizes, this.kem, this.dsa, cacheKem, cacheDsa := sizes, kem, dsa, [], [];
    }

    method WriteBoth(k: File, d: File, fate: Fate) returns (done: bool)
      modifies this
      ensures done <==> fate.writes >= 2
      ensures Value() == if done then Written(old(Value()), k, d, fate) else Died(Written(old(Value()), k, d, fate), fate)
    {
      if fate.writes >= 1 { kem := k; }
      if fate.writes >= 2 { dsa := d; }
      if fate.writes < 2 && fate.dies { cacheKem, cacheDsa := [], []; }
      return fate.writes >= 2;
    }

    method UnlockWith(passphrase: Bytes, fate: Fate) returns (r: Result)
      modifies this
      ensures (Value(), r) == Unlock(sizes, old(Value()), passphrase, fate)
    {
      if passphrase == [] { return No; }
      if kem.Missing? { return Throws; }
      var k := Opened(kem, passphrase, KemLabel);
      if k.None? { return No; }
      if |k.value| != sizes.kem || dsa.Missing? { return Throws; }
      var d := Opened(dsa, passphrase, DsaLabel);
      if d.None? { return No; }
      if |d.value| != sizes.dsa { return Throws; }
      var mixed := kem.Protected? != dsa.Protected?;
      cacheKem, cacheDsa := k.value, d.value;
      if mixed {
        var done := WriteBoth(Protected(k.value, passphrase, KemLabel), Protected(d.value, passphrase, DsaLabel), fate);
        if !done { return Throws; }
        if fate.dies { cacheKem, cacheDsa := [], []; }
      }
      return Yes;
    }

    method ProtectWith(passphrase: Bytes, fate: Fate) returns (r: Result)
      modifies this
      ensures (Value(), r) == SetPassphrase(sizes, old(Value()), passphrase, fate)
      ensures r == Yes ==> OnlyOpens(kem, passphrase, KemLabel, old(Loaded(kem, cacheKem))) && OnlyOpens(dsa, passphrase, DsaLabel, old(Loaded(dsa, cacheDsa)))
    {
      if |passphrase| < MIN_PASSPHRASE { return Throws; }
      var k, d := Loaded(kem, cacheKem), Loaded(dsa, cacheDsa);
      if |k| != sizes.kem || |d| != sizes.dsa { return Throws; }
      var done := WriteBoth(Protected(k, passphrase, KemLabel), Protected(d, passphrase, DsaLabel), fate);
      if !done { return Throws; }
      if fate.dies { cacheKem, cacheDsa := [], []; } else { cacheKem, cacheDsa := k, d; }
      return Yes;
    }

    method Unprotect(fate: Fate) returns (r: Result)
      modifies this
      ensures (Value(), r) == RemovePassphrase(sizes, old(Value()), fate)
      ensures r == Yes ==> kem == Plain(old(Loaded(kem, cacheKem))) && dsa == Plain(old(Loaded(dsa, cacheDsa)))
    {
      var k, d := Loaded(kem, cacheKem), Loaded(dsa, cacheDsa);
      if |k| != sizes.kem || |d| != sizes.dsa { return Throws; }
      var done := WriteBoth(Plain(k), Plain(d), fate);
      if !done { return Throws; }
      cacheKem, cacheDsa := [], [];
      return Yes;
    }
  }
}
