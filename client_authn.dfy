/** plenum/server/client_authn.py: threshold authentication of a request's
    signatures against the verification keys of their signers. */
module ClientAuthn {
  import opened Wrappers

  /** The exceptions `authenticate` and `getVerkey` raise. */
  datatype AuthError =
    | InsufficientSignatures(numSigs: int, threshold: int)
    | InvalidSignatureFormat
    | CouldNotAuthenticate(idr: string)
    | UnknownIdentifier(idr: string)
    | InsufficientCorrectSignatures(found: int, threshold: int)

  /** Base58 decoding and the Ed25519 check of `DidVerifier(verkey,
      identifier=idr).verify(sig, msg)`, both abstract. */
  datatype Crypto = Crypto(
    decode: string -> Option<seq<bv8>>,
    verify: (string, string, seq<bv8>, seq<bv8>) -> bool)

  /** The value `addIdr` stores for an identifier. */
  datatype ClientEntry = ClientEntry(verkey: Option<string>, role: Option<string>)

  /** What `getVerkey` consults: the registered clients, then the
      uncommitted ledger state. `uncommitted` maps an identifier whose
      uncommitted NYM details are non-empty to the verkey those details
      hold (None when they hold none); `DomainRequestHandler.getNymDetails`
      itself is not part of this model. */
  datatype KeyStore = KeyStore(clients: map<string, ClientEntry>, uncommitted: map<string, Option<string>>)

  /** `getVerkey(identifier)`. */
  function GetVerkey(ks: KeyStore, idr: string): (r: Result<Option<string>, AuthError>)
    ensures r.Success? <==> idr in ks.clients || idr in ks.uncommitted
    ensures r.Failure? ==> r.error == UnknownIdentifier(idr)
    ensures idr in ks.clients ==> r == Success(ks.clients[idr].verkey)
  {
    if idr in ks.clients then Success(ks.clients[idr].verkey)
    else if idr in ks.uncommitted then Success(ks.uncommitted[idr])
    else Failure(UnknownIdentifier(idr))
  }

  /** The threshold after settlement: the one given, or all signatures. */
  function Settled(sigs: seq<(string, string)>, threshold: Option<int>): int
  {
    if threshold.Some? then threshold.value else |sigs|
  }

  /** The loop of `authenticate` from the `i`-th signature on, with the
      identifiers verified so far. */
  function AuthLoop(ks: KeyStore, cr: Crypto, msg: seq<bv8>, sigs: seq<(string, string)>, i: nat, t: int,
                    correct: seq<string>): (r: Result<seq<string>, AuthError>)
    requires i <= |sigs|
    ensures r.Success? ==> |r.value| == t && |correct| < |r.value| && r.value[..|correct|] == correct
    ensures r.Failure? && r.error.InsufficientCorrectSignatures? ==>
      r.error.threshold == t && |correct| <= r.error.found
    ensures r.Failure? ==> !r.error.InsufficientSignatures?
    decreases |sigs| - i
  {
    if i == |sigs| then Failure(InsufficientCorrectSignatures(|correct|, t))
    else
      var (idr, sig) := sigs[i];
      match cr.decode(sig)
      case None => Failure(InvalidSignatureFormat)
      case Some(bytes) =>
        match GetVerkey(ks, idr)
        case Failure(e) => Failure(e)
        case Success(verkey) =>
          if verkey.None? then Failure(CouldNotAuthenticate(idr))
          else if cr.verify(verkey.value, idr, bytes, msg) then
            if |correct + [idr]| == t then Success(correct + [idr])
            else AuthLoop(ks, cr, msg, sigs, i + 1, t, correct + [idr])
          else AuthLoop(ks, cr, msg, sigs, i + 1, t, correct)
  }

  /** `NaclAuthNr.authenticate(msg, signatures, threshold)`; the signature
      dict is its items in iteration order. */
  function AuthenticateSpec(ks: KeyStore, cr: Crypto, msg: seq<bv8>, sigs: seq<(string, string)>,
                            threshold: Option<int>): (r: Result<seq<string>, AuthError>)
    ensures r.Success? ==> 1 <= |r.value| == Settled(sigs, threshold)
    ensures r.Failure? && r.error.InsufficientCorrectSignatures? ==> r.error.threshold == Settled(sigs, threshold)
    ensures r.Failure? && r.error.InsufficientSignatures? ==>
      threshold.Some? && r.error.numSigs == |sigs| < r.error.threshold == threshold.value
  {
    if threshold.Some? && |sigs| < threshold.value then Failure(InsufficientSignatures(|sigs|, threshold.value))
    else AuthLoop(ks, cr, msg, sigs, 0, Settled(sigs, threshold), [])
  }

  /** The signature decodes and its signer has a verkey. */
  predicate Usable(ks: KeyStore, cr: Crypto, e: (string, string))
  {
    cr.decode(e.1).Some? && GetVerkey(ks, e.0).Success? && GetVerkey(ks, e.0).value.Some?
  }

  predicate Verifies(ks: KeyStore, cr: Crypto, msg: seq<bv8>, e: (string, string))
  {
    Usable(ks, cr, e) && cr.verify(GetVerkey(ks, e.0).value.value, e.0, cr.decode(e.1).value, msg)
  }

  predicate AllUsable(ks: KeyStore, cr: Crypto, sigs: seq<(string, string)>)
  {
    forall k :: 0 <= k < |sigs| ==> Usable(ks, cr, sigs[k])
  }

  /** The signers, in order, of the signatures that verify. */
  function Verified(ks: KeyStore, cr: Crypto, msg: seq<bv8>, sigs: seq<(string, string)>): seq<string>
  {
    if sigs == [] then []
    else Verified(ks, cr, msg, sigs[..|sigs| - 1]) +
         (if Verifies(ks, cr, msg, sigs[|sigs| - 1]) then [sigs[|sigs| - 1].0] else [])
  }

  lemma VerifiedStep(ks: KeyStore, cr: Crypto, msg: seq<bv8>, sigs: seq<(string, string)>, i: nat)
    requires i < |sigs|
    ensures Verified(ks, cr, msg, sigs[..i + 1]) ==
      Verified(ks, cr, msg, sigs[..i]) + (if Verifies(ks, cr, msg, sigs[i]) then [sigs[i].0] else [])
  {
    assert sigs[..i + 1][..i] == sigs[..i];
  }

  /** Every outcome of the loop from position `i`, given that the
      signatures before `i` were usable and left fewer than `t` verified. */
  lemma {:induction false} AuthLoopOutcome(ks: KeyStore, cr: Crypto, msg: seq<bv8>, sigs: seq<(string, string)>,
                                           i: nat, t: int, correct: seq<string>)
    requires i <= |sigs|
    requires AllUsable(ks, cr, sigs[..i]) && correct == Verified(ks, cr, msg, sigs[..i])
    requires t >= 1 ==> |correct| < t
    ensures var r := AuthLoop(ks, cr, msg, sigs, i, t, correct);
      (r.Success? ==>
        t >= 1 && |r.value| == t &&
        exists j :: i < j <= |sigs| && AllUsable(ks, cr, sigs[..j]) && r.value == Verified(ks, cr, msg, sigs[..j]) &&
          Verifies(ks, cr, msg, sigs[j - 1])) &&
      (r.Failure? && r.error.InsufficientCorrectSignatures? ==>
        r.error.threshold == t && AllUsable(ks, cr, sigs) && r.error.found == |Verified(ks, cr, msg, sigs)| &&
        (t >= 1 ==> r.error.found < t)) &&
      (r.Failure? && !r.error.InsufficientCorrectSignatures? ==>
        !r.error.InsufficientSignatures? &&
        exists j :: i <= j < |sigs| && AllUsable(ks, cr, sigs[..j]) && !Usable(ks, cr, sigs[j]) &&
          (r.error == InvalidSignatureFormat <==> cr.decode(sigs[j].1).None?) &&
          (r.error.CouldNotAuthenticate? ==> r.error.idr == sigs[j].0 && GetVerkey(ks, sigs[j].0) == Success(None)) &&
          (r.error.UnknownIdentifier? ==> r.error.idr == sigs[j].0 && GetVerkey(ks, sigs[j].0).Failure?))
    ensures AllUsable(ks, cr, sigs) ==>
      (AuthLoop(ks, cr, msg, sigs, i, t, correct).Success? <==> 1 <= t <= |Verified(ks, cr, msg, sigs)|)
    decreases |sigs| - i
  {
    if i == |sigs| {
      assert sigs[..i] == sigs;
    } else {
      var e := sigs[i];
      VerifiedStep(ks, cr, msg, sigs, i);
      if Usable(ks, cr, e) {
        assert sigs[..i + 1] == sigs[..i] + [e];
        var next := if Verifies(ks, cr, msg, e) then correct + [e.0] else correct;
        if Verifies(ks, cr, msg, e) && |next| == t {
          if AllUsable(ks, cr, sigs) {
            VerifiedPrefixGrows(ks, cr, msg, sigs, i + 1);
          }
        } else {
          AuthLoopOutcome(ks, cr, msg, sigs, i + 1, t, next);
        }
      }
    }
  }

  /** The verified list of a prefix is a prefix of the whole verified list. */
  lemma {:induction false} VerifiedPrefixGrows(ks: KeyStore, cr: Crypto, msg: seq<bv8>, sigs: seq<(string, string)>, j: nat)
    requires j <= |sigs|
    ensures |Verified(ks, cr, msg, sigs[..j])| <= |Verified(ks, cr, msg, sigs)|
    decreases |sigs| - j
  {
    if j == |sigs| {
      assert sigs[..j] == sigs;
    } else {
      VerifiedStep(ks, cr, msg, sigs, j);
      VerifiedPrefixGrows(ks, cr, msg, sigs, j + 1);
    }
  }

  /** `authenticate`: the threshold is settled before any signature is
      looked at; a success returns exactly `threshold` signers whose
      signatures verified, in order, the last one being where the loop
      stopped; with every signature usable it succeeds exactly when at
      least `threshold` (and at least one) of them verify; a threshold of
      zero, including the default one of an empty signature map, never
      succeeds. */
  lemma AuthenticateOutcome(ks: KeyStore, cr: Crypto, msg: seq<bv8>, sigs: seq<(string, string)>, threshold: Option<int>)
    ensures var r := AuthenticateSpec(ks, cr, msg, sigs, threshold);
      (threshold.Some? && |sigs| < threshold.value ==> r == Failure(InsufficientSignatures(|sigs|, threshold.value))) &&
      (r.Success? ==>
        |r.value| == Settled(sigs, threshold) >= 1 &&
        exists j :: 0 < j <= |sigs| && AllUsable(ks, cr, sigs[..j]) &&
          r.value == Verified(ks, cr, msg, sigs[..j]) && Verifies(ks, cr, msg, sigs[j - 1])) &&
      (r.Failure? && r.error.InsufficientCorrectSignatures? ==>
        r.error.threshold == Settled(sigs, threshold) && AllUsable(ks, cr, sigs) &&
        r.error.found == |Verified(ks, cr, msg, sigs)|)
    ensures AllUsable(ks, cr, sigs) && !(threshold.Some? && |sigs| < threshold.value) ==>
      (AuthenticateSpec(ks, cr, msg, sigs, threshold).Success? <==>
        1 <= Settled(sigs, threshold) <= |Verified(ks, cr, msg, sigs)|)
    ensures Settled(sigs, threshold) <= 0 ==> AuthenticateSpec(ks, cr, msg, sigs, threshold).Failure?
  {
    if !(threshold.Some? && |sigs| < threshold.value) {
      assert sigs[..0] == [];
      AuthLoopOutcome(ks, cr, msg, sigs, 0, Settled(sigs, threshold), []);
    }
  }

  /** `CoreAuthNr`: the registered clients (which `addIdr` updates in place),
      the uncommitted state it falls back on, the request types it
      classifies as queries and writes, and the names of its class and base
      classes (what `isinstance` tests; a plugin subclass adds its own). */
  class CoreAuthNr {
    var clients: map<string, ClientEntry>
    const uncommitted: map<string, Option<string>>
    const poolWrites: set<string>
    const domainWrites: set<string>
    const poolQueries: set<string>
    const domainQueries: set<string>
    /** `write_types`: the pool and domain write types. */
    const writeTypes: set<string> := poolWrites + domainWrites
    /** `query_types`: GET_TXN with the pool and domain query types. */
    const queryTypes: set<string> := {"GET_TXN"} + poolQueries + domainQueries
    const classNames: set<string>

    /** `write_types` is the pool and domain write types; `query_types`
        is GET_TXN with the pool and domain query types. */
    constructor(uncommitted: map<string, Option<string>>, poolWrites: set<string>, domainWrites: set<string>,
                poolQueries: set<string>, domainQueries: set<string>, subclassNames: set<string>)
      ensures clients == map[] && this.uncommitted == uncommitted
      ensures writeTypes == poolWrites + domainWrites
      ensures queryTypes == {"GET_TXN"} + poolQueries + domainQueries
      ensures classNames == {"CoreAuthNr", "CoreAuthMixin", "SimpleAuthNr", "NaclAuthNr", "ClientAuthNr"} + subclassNames
    {
      clients := map[];
      this.uncommitted := uncommitted;
      classNames := {"CoreAuthNr", "CoreAuthMixin", "SimpleAuthNr", "NaclAuthNr", "ClientAuthNr"} + subclassNames;
      this.poolWrites := poolWrites;
      this.domainWrites := domainWrites;
      this.poolQueries := poolQueries;
      this.domainQueries := domainQueries;
    }

    function Keys(): KeyStore
      reads this
    {
      KeyStore(clients, uncommitted)
    }

    /** `addIdr(identifier, verkey, role)`: always (over)writes the entry. */
    method AddIdr(identifier: string, verkey: Option<string>, role: Option<string>)
      modifies this
      ensures clients == old(clients)[identifier := ClientEntry(verkey, role)]
      ensures GetVerkey(Keys(), identifier) == Success(verkey)
      ensures forall other :: other != identifier ==> GetVerkey(Keys(), other) == old(GetVerkey(Keys(), other))
    {
      clients := clients[identifier := ClientEntry(verkey, role)];
    }

    /** `is_query(typ)`. */
    predicate IsQuery(typ: string)
      ensures IsQuery(typ) <==> typ == "GET_TXN" || typ in poolQueries || typ in domainQueries
    {
      typ in queryTypes
    }

    /** `is_write(typ)`. */
    predicate IsWrite(typ: string)
      ensures IsWrite(typ) <==> typ in poolWrites || typ in domainWrites
    {
      typ in writeTypes
    }

    /** `authenticate(msg, signatures, threshold)`: the loop with its early
      exit, against `AuthenticateSpec`. */
    method Authenticate(cr: Crypto, msg: seq<bv8>, sigs: seq<(string, string)>, threshold: Option<int>)
      returns (r: Result<seq<string>, AuthError>)
      ensures r == AuthenticateSpec(Keys(), cr, msg, sigs, threshold)
    {
      var numSigs := |sigs|;
      var t: int;
      if threshold.Some? {
        if numSigs < threshold.value {
          return Failure(InsufficientSignatures(numSigs, threshold.value));
        }
        t := threshold.value;
      } else {
        t := numSigs;
      }
      var correct: seq<string> := [];
      var i := 0;
      while i < |sigs|
        invariant 0 <= i <= |sigs|
        invariant AuthLoop(Keys(), cr, msg, sigs, i, t, correct) == AuthenticateSpec(Keys(), cr, msg, sigs, threshold)
      {
        var (idr, sig) := sigs[i];
        var bytes := cr.decode(sig);
        if bytes.None? {
          return Failure(InvalidSignatureFormat);
        }
        var verkey := GetVerkey(Keys(), idr);
        if verkey.Failure? {
          return Failure(verkey.error);
        }
        if verkey.value.None? {
          return Failure(CouldNotAuthenticate(idr));
        }
        if cr.verify(verkey.value.value, idr, bytes.value, msg) {
          correct := correct + [idr];
          if |correct| == t {
            return Success(correct);
          }
        }
        i := i + 1;
      }
      r := Failure(InsufficientCorrectSignatures(|correct|, t));
    }
  }
}
