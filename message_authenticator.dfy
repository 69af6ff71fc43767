/** plenum/common/messages/message_authenticator.py: the ordered list of
    client authenticators a signed message is checked against. */
module MessageAuthentication {
  import opened Wrappers
  import opened Wire
  import opened ClientAuthn

  datatype MsgAuthError =
    | NoAuthenticatorFound
    | Authn(error: AuthError)
    | NoAuthenticatorRegistered

  /** What `authenticate` reads of a signed message: its typename, the
      serialized payload, the (frm, value) pairs of `signature.values`
      and `signature.threshold`. */
  datatype SignedRequest = SignedRequest(
    typename: string, msgSerialized: seq<bv8>, signatureValues: seq<(string, string)>, threshold: Option<int>)

  /** `{v.frm: v.value for v in values}`. */
  function SignatureDict(values: seq<(string, string)>): seq<(string, string)>
  {
    if values == [] then []
    else Put(SignatureDict(values[..|values| - 1]), values[|values| - 1].0, values[|values| - 1].1)
  }

  /** `values[j]` is the last pair signed by `frm`. */
  predicate LastFrom(values: seq<(string, string)>, frm: string, j: nat)
  {
    j < |values| && values[j].0 == frm && forall k :: j < k < |values| ==> values[k].0 != frm
  }

  /** The dict holds an entry for every signer listed, and no other. */
  lemma {:induction false} SignatureDictSigners(values: seq<(string, string)>)
    ensures forall frm :: frm in KeysOf(SignatureDict(values)) <==> exists k :: 0 <= k < |values| && values[k].0 == frm
  {
    if values != [] {
      var n := |values| - 1;
      var init := values[..n];
      SignatureDictSigners(init);
      forall frm | frm in KeysOf(SignatureDict(values))
        ensures exists k :: 0 <= k < |values| && values[k].0 == frm
      {
        if frm != values[n].0 {
          var k :| 0 <= k < |init| && init[k].0 == frm;
          assert values[k].0 == frm;
        }
      }
      forall frm | exists k :: 0 <= k < |values| && values[k].0 == frm
        ensures frm in KeysOf(SignatureDict(values))
      {
        var k :| 0 <= k < |values| && values[k].0 == frm;
        if k < n {
          assert init[k].0 == frm;
        }
      }
    }
  }

  /** A signer listed twice keeps the value of its last listing. */
  lemma {:induction false} SignatureDictKeepsLast(values: seq<(string, string)>)
    ensures forall frm, j: nat :: LastFrom(values, frm, j) ==> Lookup(SignatureDict(values), frm) == Some(values[j].1)
  {
    if values != [] {
      var n := |values| - 1;
      var init := values[..n];
      SignatureDictKeepsLast(init);
      forall frm, j: nat | LastFrom(values, frm, j)
        ensures Lookup(SignatureDict(values), frm) == Some(values[j].1)
      {
        if j < n {
          assert LastFrom(init, frm, j);
        }
      }
    }
  }

  /** What `authenticate` uses of one registered authenticator. */
  datatype AuthnView = AuthnView(keys: KeyStore, queryTypes: set<string>, writeTypes: set<string>)

  function ViewsOf(auths: seq<CoreAuthNr>): (r: seq<AuthnView>)
    reads auths
    ensures |r| == |auths|
    ensures forall i :: 0 <= i < |auths| ==>
      r[i] == AuthnView(auths[i].Keys(), auths[i].queryTypes, auths[i].writeTypes)
  {
    if auths == [] then []
    else [AuthnView(auths[0].Keys(), auths[0].queryTypes, auths[0].writeTypes)] + ViewsOf(auths[1..])
  }

  /** The signers one write authenticator returns, or its error. */
  function AuthnResult(v: AuthnView, cr: Crypto, req: SignedRequest): Result<seq<string>, AuthError>
  {
    AuthenticateSpec(v.keys, cr, req.msgSerialized, SignatureDict(req.signatureValues), req.threshold)
  }

  /** The loop of `authenticate` from the `i`-th authenticator on. */
  function AuthFold(views: seq<AuthnView>, cr: Crypto, req: SignedRequest, i: nat, ids: set<string>): Result<set<string>, MsgAuthError>
    requires i <= |views|
    decreases |views| - i
  {
    if i == |views| then (if ids == {} then Failure(NoAuthenticatorFound) else Success(ids))
    else if req.typename in views[i].queryTypes then Success({})
    else if req.typename !in views[i].writeTypes then AuthFold(views, cr, req, i + 1, ids)
    else match AuthnResult(views[i], cr, req)
      case Failure(e) => Failure(Authn(e))
      case Success(rv) => AuthFold(views, cr, req, i + 1, ids + (set x | x in rv))
  }

  /** Reference reading: the position of the first authenticator that
      classifies `typ` as a query (or the end of the list) ... */
  function FirstQuery(views: seq<AuthnView>, typ: string, i: nat): (q: nat)
    requires i <= |views|
    ensures i <= q <= |views|
    decreases |views| - i
  {
    if i == |views| || typ in views[i].queryTypes then i else FirstQuery(views, typ, i + 1)
  }

  /** ... and the union of what the write authenticators among the first
      `n` return, or the first error one of them raises. */
  function WriteResults(views: seq<AuthnView>, cr: Crypto, req: SignedRequest, n: nat): Result<set<string>, AuthError>
    requires n <= |views|
  {
    if n == 0 then Success({})
    else match WriteResults(views, cr, req, n - 1)
      case Failure(e) => Failure(e)
      case Success(u) =>
        if req.typename !in views[n - 1].writeTypes then Success(u)
        else match AuthnResult(views[n - 1], cr, req)
          case Failure(e) => Failure(e)
          case Success(rv) => Success(u + (set x | x in rv))
  }

  lemma {:induction false} WriteFailureSticks(views: seq<AuthnView>, cr: Crypto, req: SignedRequest, n: nat, m: nat)
    requires n <= m <= |views| && WriteResults(views, cr, req, n).Failure?
    ensures WriteResults(views, cr, req, m) == WriteResults(views, cr, req, n)
    decreases m - n
  {
    if n < m {
      WriteFailureSticks(views, cr, req, n, m - 1);
    }
  }

  /** The outcome the reference reading predicts. */
  function Expected(views: seq<AuthnView>, cr: Crypto, req: SignedRequest): Result<set<string>, MsgAuthError>
  {
    var q := FirstQuery(views, req.typename, 0);
    match WriteResults(views, cr, req, q)
    case Failure(e) => Failure(Authn(e))
    case Success(u) =>
      if q < |views| then Success({})
      else if u == {} then Failure(NoAuthenticatorFound)
      else Success(u)
  }

  lemma {:induction false} AuthFoldMatches(views: seq<AuthnView>, cr: Crypto, req: SignedRequest, i: nat, ids: set<string>)
    requires i <= FirstQuery(views, req.typename, 0)
    requires FirstQuery(views, req.typename, i) == FirstQuery(views, req.typename, 0)
    requires WriteResults(views, cr, req, i) == Success(ids)
    ensures AuthFold(views, cr, req, i, ids) == Expected(views, cr, req)
    decreases |views| - i
  {
    var q := FirstQuery(views, req.typename, 0);
    if i < |views| && req.typename !in views[i].queryTypes {
      if req.typename in views[i].writeTypes && AuthnResult(views[i], cr, req).Failure? {
        WriteFailureSticks(views, cr, req, i + 1, q);
      } else {
        AuthFoldMatches(views, cr, req, i + 1, WriteResults(views, cr, req, i + 1).value);
      }
    }
  }

  /** `authenticate` agrees with the reference reading: authenticators are
      consulted in order up to the first one classifying the typename as a
      query; the first error among the write authenticators before it is
      raised; if a query authenticator is reached the result is the empty
      set, whatever was gathered; otherwise the union of the write
      authenticators' signers, or NoAuthenticatorFound when it is empty. */
  lemma AuthenticateMatchesReference(views: seq<AuthnView>, cr: Crypto, req: SignedRequest)
    ensures AuthFold(views, cr, req, 0, {}) == Expected(views, cr, req)
    ensures AuthFold(views, cr, req, 0, {}).Success? && AuthFold(views, cr, req, 0, {}).value != {} ==>
      forall i :: 0 <= i < |views| ==> req.typename !in views[i].queryTypes
  {
    AuthFoldMatches(views, cr, req, 0, {});
    if FirstQuery(views, req.typename, 0) < |views| {
      var q := FirstQuery(views, req.typename, 0);
      assert q <= |views|;
    } else {
      FirstQueryNone(views, req.typename, 0);
    }
  }

  lemma {:induction false} FirstQueryNone(views: seq<AuthnView>, typ: string, i: nat)
    requires i <= |views| && FirstQuery(views, typ, i) == |views|
    ensures forall k :: i <= k < |views| ==> typ !in views[k].queryTypes
    decreases |views| - i
  {
    if i < |views| {
      FirstQueryNone(views, typ, i + 1);
    }
  }

  class MessageAuthenticator {
    /** `_authenticators`; the first one is the core authenticator. */
    var authenticators: seq<CoreAuthNr>

    constructor()
      ensures authenticators == []
    {
      authenticators := [];
    }

    /** `register_authenticator(a)`: appended at the end. */
    method RegisterAuthenticator(a: CoreAuthNr)
      modifies this
      ensures authenticators == old(authenticators) + [a]
      ensures old(CoreAuthenticator()).Success? ==> CoreAuthenticator() == old(CoreAuthenticator())
    {
      authenticators := authenticators + [a];
    }

    /** `core_authenticator`: the first registered one; an error while
        none is registered. */
    function CoreAuthenticator(): (r: Result<CoreAuthNr, MsgAuthError>)
      reads this
      ensures r.Success? <==> |authenticators| > 0
      ensures r.Success? ==> r.value == authenticators[0]
      ensures r.Failure? ==> r.error == NoAuthenticatorRegistered
    {
      if authenticators == [] then Failure(NoAuthenticatorRegistered) else Success(authenticators[0])
    }

    /** `get_authnr_by_type(t)`: the first authenticator that is an
        instance of `t`, else None. */
    method GetAuthnrByType(t: string) returns (r: Option<CoreAuthNr>)
      ensures r.Some? ==>
        exists i :: 0 <= i < |authenticators| && authenticators[i] == r.value && t in r.value.classNames &&
          forall k :: 0 <= k < i ==> t !in authenticators[k].classNames
      ensures r.None? ==> forall k :: 0 <= k < |authenticators| ==> t !in authenticators[k].classNames
    {
      var i := 0;
      while i < |authenticators|
        invariant 0 <= i <= |authenticators|
        invariant forall k :: 0 <= k < i ==> t !in authenticators[k].classNames
      {
        if t in authenticators[i].classNames {
          return Some(authenticators[i]);
        }
        i := i + 1;
      }
      return None;
    }

    /** `authenticate(msg)`, against `AuthFold` over the registered
        authenticators. */
    method Authenticate(cr: Crypto, req: SignedRequest) returns (r: Result<set<string>, MsgAuthError>)
      ensures r == AuthFold(ViewsOf(authenticators), cr, req, 0, {})
    {
      var views := ViewsOf(authenticators);
      var identifiers: set<string> := {};
      var typ := req.typename;
      var signatures := SignatureDict(req.signatureValues);
      var i := 0;
      while i < |authenticators|
        invariant 0 <= i <= |authenticators|
        invariant AuthFold(views, cr, req, i, identifiers) == AuthFold(views, cr, req, 0, {})
      {
        var a := authenticators[i];
        if a.IsQuery(typ) {
          return Success({});
        }
        if !a.IsWrite(typ) {
          i := i + 1;
          continue;
        }
        var rv := a.Authenticate(cr, req.msgSerialized, signatures, req.threshold);
        if rv.Failure? {
          return Failure(Authn(rv.error));
        }
        identifiers := identifiers + (set x | x in rv.value);
        i := i + 1;
      }
      if identifiers == {} {
        return Failure(NoAuthenticatorFound);
      }
      return Success(identifiers);
    }
  }
}
