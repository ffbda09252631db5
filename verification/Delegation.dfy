/** Delegation chains of capability tokens (src/orchestra/identity/delegation.py, src/orchestra/identity/ucan.py). */
module Delegation {
  import opened Wrappers

  datatype Capability = Capability(resource: string, ability: string)

  /** An entry of the claim att; its two keys "with" and "can" may be absent. */
  datatype Entry = Entry(resource: Option<string>, ability: Option<string>)

  /**
   A token string, parsed; Garbage cannot be parsed. An empty iss or an aud of None stands for an absent claim,
   and signed says whether the signature is good for the issuer's key.
   */
  datatype Token =
    | Garbage
    | Token(iss: string, aud: Option<string>, nbf: int, exp: int, att: seq<Entry>, prf: seq<Token>, signed: bool)

  /** What resolving an issuer gives: an uncaught exception, a document without a usable key, or a key. */
  datatype Resolution = Unresolvable | NoKey | Key

  /** Granted returns the token; Failed and Denied are the two errors the proof loop catches, Crashed is any other. */
  datatype Outcome = Granted | Failed | Denied | Crashed

  datatype Setting = Setting(now: int, resolve: string -> Resolution)

  const CLOCK_SKEW := 60

  // ---- Capabilities ----

  predicate ResourceCovers(granted: string, required: string) {
    || granted == required
    || (EndsWith(granted, "/*") && granted[..|granted| - 2] + "/" <= required)
  }

  predicate EndsWith(s: string, suffix: string) {
    |suffix| <= |s| && s[|s| - |suffix|..] == suffix
  }

  predicate Covers(granted: Capability, required: Capability) {
    ResourceCovers(granted.resource, required.resource)
    && (granted.ability == required.ability || granted.ability == "*")
  }

  function OrEmpty(s: Option<string>): string {
    if s.Some? then s.value else ""
  }

  /** What an entry grants; the check reads an absent key as the empty string. */
  function Grant(entry: Entry): Capability {
    Capability(OrEmpty(entry.resource), OrEmpty(entry.ability))
  }

  /** Some entry of the token covers the capability. */
  predicate Claims(att: seq<Entry>, required: Capability) {
    exists i :: 0 <= i < |att| && Covers(Grant(att[i]), required)
  }

  /** Every entry has both keys. */
  predicate Complete(att: seq<Entry>) {
    forall i :: 0 <= i < |att| ==> att[i].resource.Some? && att[i].ability.Some?
  }

  method CheckCapability(att: seq<Entry>, required: Capability) returns (r: bool)
    ensures r <==> exists i :: 0 <= i < |att| && Covers(Grant(att[i]), required)
  {
    for k := 0 to |att|
      invariant forall i :: 0 <= i < k ==> !Covers(Grant(att[i]), required)
    {
      var entry := Grant(att[k]);
      var resourceMatch := false;
      if entry.resource == required.resource {
        resourceMatch := true;
      } else if EndsWith(entry.resource, "/*") {
        var namespace := entry.resource[..|entry.resource| - 2];
        resourceMatch := namespace + "/" <= required.resource;
      }
      var abilityMatch := entry.ability == required.ability || entry.ability == "*";
      if resourceMatch && abilityMatch {
        return true;
      }
    }
    return false;
  }

  /** Coverage is reflexive and transitive. */
  lemma CoversTransitive(a: Capability, b: Capability, c: Capability)
    ensures Covers(a, a)
    ensures Covers(a, b) && Covers(b, c) ==> Covers(a, c)
  {
    if Covers(a, b) && Covers(b, c) {
      ResourceCoversTransitive(a.resource, b.resource, c.resource);
    }
  }

  lemma ResourceCoversTransitive(a: string, b: string, c: string)
    requires ResourceCovers(a, b) && ResourceCovers(b, c)
    ensures ResourceCovers(a, c)
  {
    if a != b && b != c {
      var outer, inner := a[..|a| - 2] + "/", b[..|b| - 2] + "/";
      assert b == b[..|b| - 2] + "/*";
      assert outer[|outer| - 1] == '/' && b[|b| - 1] == '*';
      assert |outer| != |b|;
      assert outer <= b && inner <= b && outer <= inner;
    }
  }

  /** A namespace wildcard covers itself and what lies below the namespace; any other resource only itself. */
  lemma WildcardCoversExactlyBelow(namespace: string, required: string)
    ensures ResourceCovers(namespace + "/*", required) <==>
            required == namespace + "/*" || exists rest: string :: required == namespace + "/" + rest
    ensures !EndsWith(namespace, "/*") ==> (ResourceCovers(namespace, required) <==> required == namespace)
  {
    var granted := namespace + "/*";
    assert granted[..|granted| - 2] == namespace;
    if namespace + "/" <= required {
      assert required == namespace + "/" + required[|namespace| + 1..];
    }
  }

  // ---- One token ----

  /** The checks on signature, times, audience and issuer; an empty audience is not checked. */
  predicate InOrder(t: Token, audience: string, at: Setting) {
    && t.Token?
    && t.iss != ""
    && at.resolve(t.iss).Key?
    && t.signed
    && at.now <= t.exp
    && t.nbf <= at.now + CLOCK_SKEW
    && (audience == "" || t.aud == Some(audience))
  }

  /** UCANManager.verify: signature, expiry, not-before, audience. */
  function VerifyClaims(t: Token, audience: string, now: int): Outcome
    requires t.Token?
  {
    if !t.signed then Failed
    else if t.exp < now then Failed
    else if t.nbf > now + CLOCK_SKEW then Failed
    else if audience != "" && t.aud != Some(audience) then Failed
    else Granted
  }

  // ---- The chain ----

  /** verify_delegation_chain. */
  function Verify(t: Token, required: Capability, audience: string, at: Setting): Outcome
    decreases t, 1
  {
    if t.Garbage? || t.iss == "" then Failed
    else if at.resolve(t.iss).Unresolvable? then Crashed
    else if at.resolve(t.iss).NoKey? then Failed
    else if VerifyClaims(t, audience, at.now) != Granted then Failed
    else if !Claims(t.att, required) then Denied
    else if t.prf == [] then Built(t)
    else
      match FirstGrant(t, |t.prf|, required, at)
      case Some(Granted) => Built(t)
      case Some(e) => e
      case None => Denied
  }

  /** The token object is built from the claims; an incomplete entry or a missing audience raises KeyError. */
  function Built(t: Token): Outcome
    requires t.Token?
  {
    if Complete(t.att) && t.aud.Some? then Granted else Crashed
  }

  /** How the loop over the proofs ends within its last n turns: a grant, an uncaught exception, or neither. */
  function FirstGrant(t: Token, n: nat, required: Capability, at: Setting): Option<Outcome>
    requires t.Token? && n <= |t.prf|
    decreases t, 0, n
  {
    if n == 0 then None
    else
      match Verify(t.prf[|t.prf| - n], required, t.iss, at)
      case Granted => Some(Granted)
      case Crashed => Some(Crashed)
      case _ => FirstGrant(t, n - 1, required, at)
  }

  method VerifyDelegationChain(t: Token, required: Capability, audience: string, at: Setting) returns (r: Outcome)
    ensures r == Verify(t, required, audience, at)
    decreases t
  {
    if t.Garbage? || t.iss == "" {
      return Failed;
    }
    match at.resolve(t.iss) {
      case Unresolvable => return Crashed;
      case NoKey => return Failed;
      case Key =>
    }
    if VerifyClaims(t, audience, at.now) != Granted {
      return Failed;
    }
    var claimed := CheckCapability(t.att, required);
    if !claimed {
      return Denied;
    }
    if t.prf == [] {
      return Built(t);
    }
    var grantedByProof := false;
    for k := 0 to |t.prf|
      invariant !grantedByProof
      invariant FirstGrant(t, |t.prf|, required, at) == FirstGrant(t, |t.prf| - k, required, at)
    {
      var proof := VerifyDelegationChain(t.prf[k], required, t.iss, at);
      if proof.Crashed? {
        return Crashed;
      }
      if proof.Granted? {
        grantedByProof := true;
        break;
      }
    }
    if !grantedByProof {
      return Denied;
    }
    return Built(t);
  }

  // ---- Proof paths ----

  /** The token is in order for its audience, names one, and claims the capability, with complete entries. */
  predicate Sound(t: Token, required: Capability, audience: string, at: Setting) {
    InOrder(t, audience, at) && t.aud.Some? && Complete(t.att) && Claims(t.att, required)
  }

  /** A path of proofs, each addressed to the issuer of the token it is a proof of, down to a token without proofs. */
  predicate ProofPath(path: seq<Token>, required: Capability, audience: string, at: Setting) {
    && path != []
    && Sound(path[0], required, audience, at)
    && (if path[0].prf == [] then |path| == 1
        else |path| > 1 && path[1] in path[0].prf && ProofPath(path[1..], required, path[0].iss, at))
  }

  /** No issuer makes the resolver raise, and all entries are complete. */
  predicate Harmless(t: Token, at: Setting) {
    t.Token? ==>
      && (t.iss != "" ==> !at.resolve(t.iss).Unresolvable?)
      && Complete(t.att)
      && forall i :: 0 <= i < |t.prf| ==> Harmless(t.prf[i], at)
  }

  /** The outcome of the loop, without its order. */
  lemma {:induction false} FirstGrantSome(t: Token, n: nat, required: Capability, at: Setting)
    requires t.Token? && n <= |t.prf|
    ensures FirstGrant(t, n, required, at) == Some(Granted) ==>
              exists p :: p in t.prf && Verify(p, required, t.iss, at) == Granted
    ensures (forall i :: |t.prf| - n <= i < |t.prf| ==> Verify(t.prf[i], required, t.iss, at) != Crashed) ==>
              && FirstGrant(t, n, required, at) != Some(Crashed)
              && (FirstGrant(t, n, required, at) == Some(Granted) <==>
                  exists i :: |t.prf| - n <= i < |t.prf| && Verify(t.prf[i], required, t.iss, at) == Granted)
    ensures FirstGrant(t, n, required, at) in {None, Some(Granted), Some(Crashed)}
  {
    if n > 0 {
      FirstGrantSome(t, n - 1, required, at);
      assert t.prf[|t.prf| - n] in t.prf;
    }
  }

  /** Whatever the issuers, a granted capability has a proof path. */
  lemma {:induction false} GrantedHasPath(t: Token, required: Capability, audience: string, at: Setting)
    returns (path: seq<Token>)
    requires Verify(t, required, audience, at) == Granted
    ensures ProofPath(path, required, audience, at) && path[0] == t
    decreases t
  {
    path := [t];
    if t.prf != [] {
      FirstGrantSome(t, |t.prf|, required, at);
      var p :| p in t.prf && Verify(p, required, t.iss, at) == Granted;
      var rest := GrantedHasPath(p, required, t.iss, at);
      path := [t] + rest;
      assert path[1..] == rest;
    }
  }

  /** With every issuer resolvable and every entry complete, nothing crashes but a leaf without audience. */
  lemma {:induction false} NoCrash(t: Token, required: Capability, audience: string, at: Setting)
    requires Harmless(t, at) && audience != ""
    ensures Verify(t, required, audience, at) != Crashed
    decreases t
  {
    if t.Token? && t.iss != "" {
      ProofsDoNotCrash(t, required, at);
    }
  }

  lemma {:induction false} ProofsDoNotCrash(t: Token, required: Capability, at: Setting)
    requires Harmless(t, at) && t.Token? && t.iss != ""
    ensures forall i :: 0 <= i < |t.prf| ==> Verify(t.prf[i], required, t.iss, at) != Crashed
    ensures FirstGrant(t, |t.prf|, required, at) == Some(Granted) <==>
            exists i :: 0 <= i < |t.prf| && Verify(t.prf[i], required, t.iss, at) == Granted
    ensures FirstGrant(t, |t.prf|, required, at) != Some(Crashed)
    decreases t, 0
  {
    forall i | 0 <= i < |t.prf|
      ensures Verify(t.prf[i], required, t.iss, at) != Crashed
    {
      NoCrash(t.prf[i], required, t.iss, at);
    }
    FirstGrantSome(t, |t.prf|, required, at);
  }

  lemma {:induction false} PathGrants(path: seq<Token>, required: Capability, audience: string, at: Setting)
    requires ProofPath(path, required, audience, at) && Harmless(path[0], at)
    ensures Verify(path[0], required, audience, at) == Granted
    decreases |path|
  {
    var t := path[0];
    if t.prf != [] {
      var i :| 0 <= i < |t.prf| && t.prf[i] == path[1];
      PathGrants(path[1..], required, t.iss, at);
      ProofsDoNotCrash(t, required, at);
    }
  }

  /** With every issuer resolvable and every entry complete, verification accepts exactly when a proof path exists. */
  lemma HarmlessGrantedByPath(t: Token, required: Capability, audience: string, at: Setting)
    requires Harmless(t, at)
    ensures Verify(t, required, audience, at) == Granted <==>
            exists path :: ProofPath(path, required, audience, at) && path[0] == t
  {
    if Verify(t, required, audience, at) == Granted {
      var path := GrantedHasPath(t, required, audience, at);
    }
    if path :| ProofPath(path, required, audience, at) && path[0] == t {
      PathGrants(path, required, audience, at);
    }
  }

  // ---- Tokens that make the verification crash ----

  /** Read off the tokens: in order and claiming, with no proofs or one that is granting before any that is crashing. */
  predicate Granting(t: Token, required: Capability, audience: string, at: Setting)
    decreases t, 1
  {
    && Sound(t, required, audience, at)
    && (t.prf == [] || GrantsFirst(t, required, at))
  }

  /** Some proof is granting, and none before it is crashing. */
  predicate GrantsFirst(t: Token, required: Capability, at: Setting)
    requires t.Token?
    decreases t, 0, 1
  {
    exists k :: 0 <= k < |t.prf| && FirstGranting(t, k, required, at)
  }

  /** Some proof is crashing, and none before it is granting. */
  predicate CrashesFirst(t: Token, required: Capability, at: Setting)
    requires t.Token?
    decreases t, 0, 1
  {
    exists k :: 0 <= k < |t.prf| && FirstCrashing(t, k, required, at)
  }

  predicate FirstGranting(t: Token, k: nat, required: Capability, at: Setting)
    requires t.Token? && k < |t.prf|
    decreases t, 0, 0
  {
    && Granting(t.prf[k], required, t.iss, at)
    && forall j :: 0 <= j < k ==> !Crashing(t.prf[j], required, t.iss, at)
  }

  /**
   Its own issuer cannot be resolved; or it is in order and claiming, and a proof is crashing before any that is
   granting, or it would be granted but names no audience or has an incomplete entry.
   */
  predicate Crashing(t: Token, required: Capability, audience: string, at: Setting)
    decreases t, 1
  {
    && t.Token? && t.iss != ""
    && (|| at.resolve(t.iss).Unresolvable?
        || (&& InOrder(t, audience, at) && Claims(t.att, required)
            && (|| (exists k :: 0 <= k < |t.prf| && FirstCrashing(t, k, required, at))
                || ((t.aud.None? || !Complete(t.att)) && (t.prf == [] || GrantsFirst(t, required, at))))))
  }

  predicate FirstCrashing(t: Token, k: nat, required: Capability, at: Setting)
    requires t.Token? && k < |t.prf|
    decreases t, 0, 0
  {
    && Crashing(t.prf[k], required, t.iss, at)
    && forall j :: 0 <= j < k ==> !Granting(t.prf[j], required, t.iss, at)
  }

  /** What the verifier says of the proofs of a token is what the tokens say. */
  ghost predicate ProofsRead(t: Token, required: Capability, at: Setting)
    requires t.Token?
  {
    forall k :: 0 <= k < |t.prf| ==>
      && (Verify(t.prf[k], required, t.iss, at) == Granted <==> Granting(t.prf[k], required, t.iss, at))
      && (Verify(t.prf[k], required, t.iss, at) == Crashed <==> Crashing(t.prf[k], required, t.iss, at))
  }

  /** The proof loop ends with a grant or a crash, whichever comes first among the proofs left to try. */
  lemma {:induction false} FirstGrantReads(t: Token, n: nat, required: Capability, at: Setting)
    requires t.Token? && n <= |t.prf| && ProofsRead(t, required, at)
    requires forall j :: 0 <= j < |t.prf| - n ==>
               !Granting(t.prf[j], required, t.iss, at) && !Crashing(t.prf[j], required, t.iss, at)
    ensures FirstGrant(t, n, required, at) == Some(Granted) <==> GrantsFirst(t, required, at)
    ensures FirstGrant(t, n, required, at) == Some(Crashed) <==> CrashesFirst(t, required, at)
    ensures FirstGrant(t, n, required, at) in {None, Some(Granted), Some(Crashed)}
  {
    if n > 0 {
      var k := |t.prf| - n;
      var outcome := Verify(t.prf[k], required, t.iss, at);
      if outcome == Granted {
        assert FirstGranting(t, k, required, at);
      } else if outcome == Crashed {
        assert FirstCrashing(t, k, required, at);
      } else {
        FirstGrantReads(t, n - 1, required, at);
      }
    }
  }

  /** On any token and any issuers: granted exactly when it reads as granting, crashed exactly when as crashing. */
  lemma {:induction false} OutcomeReads(t: Token, required: Capability, audience: string, at: Setting)
    ensures Verify(t, required, audience, at) == Granted <==> Granting(t, required, audience, at)
    ensures Verify(t, required, audience, at) == Crashed <==> Crashing(t, required, audience, at)
    decreases t
  {
    if t.Token? {
      forall k | 0 <= k < |t.prf|
        ensures Verify(t.prf[k], required, t.iss, at) == Granted <==> Granting(t.prf[k], required, t.iss, at)
        ensures Verify(t.prf[k], required, t.iss, at) == Crashed <==> Crashing(t.prf[k], required, t.iss, at)
      {
        OutcomeReads(t.prf[k], required, t.iss, at);
      }
      FirstGrantReads(t, |t.prf|, required, at);
    }
  }

  /** A proof path in which no proof tried before the chosen one, at any token, is crashing. */
  predicate UntroubledPath(path: seq<Token>, required: Capability, audience: string, at: Setting) {
    && path != []
    && Sound(path[0], required, audience, at)
    && (if path[0].prf == [] then |path| == 1
        else && |path| > 1
             && (exists k :: 0 <= k < |path[0].prf| && ReachedAt(path[0], k, path[1], required, at))
             && UntroubledPath(path[1..], required, path[0].iss, at))
  }

  predicate ReachedAt(t: Token, k: nat, next: Token, required: Capability, at: Setting)
    requires t.Token? && k < |t.prf|
  {
    t.prf[k] == next && forall j :: 0 <= j < k ==> !Crashing(t.prf[j], required, t.iss, at)
  }

  lemma {:induction false} GrantingHasPath(t: Token, required: Capability, audience: string, at: Setting)
    returns (path: seq<Token>)
    requires Granting(t, required, audience, at)
    ensures UntroubledPath(path, required, audience, at) && path[0] == t
    decreases t
  {
    path := [t];
    if t.prf != [] {
      assert GrantsFirst(t, required, at);
      var k :| 0 <= k < |t.prf| && FirstGranting(t, k, required, at);
      var rest := GrantingHasPath(t.prf[k], required, t.iss, at);
      path := [t] + rest;
      assert path[1..] == rest && ReachedAt(t, k, path[1], required, at);
    }
  }

  lemma {:induction false} UntroubledPathGrants(path: seq<Token>, required: Capability, audience: string, at: Setting)
    requires UntroubledPath(path, required, audience, at)
    ensures Granting(path[0], required, audience, at)
    decreases |path|
  {
    if |path| > 1 {
      UntroubledPathGrants(path[1..], required, path[0].iss, at);
      var k :| 0 <= k < |path[0].prf| && ReachedAt(path[0], k, path[1], required, at);
      assert FirstGranting(path[0], k, required, at);
    }
  }

  /**
   Whatever the issuers: verification accepts exactly when there is a proof path in which no proof tried before the
   chosen one, at any of its tokens, is crashing.
   */
  lemma GrantedExactlyByPath(t: Token, required: Capability, audience: string, at: Setting)
    ensures Verify(t, required, audience, at) == Granted <==>
            exists path :: UntroubledPath(path, required, audience, at) && path[0] == t
  {
    OutcomeReads(t, required, audience, at);
    if Granting(t, required, audience, at) {
      var path := GrantingHasPath(t, required, audience, at);
    }
    if path :| UntroubledPath(path, required, audience, at) && path[0] == t {
      UntroubledPathGrants(path, required, audience, at);
    }
  }

  /** Delegation never widens: every token of the path itself claims what was granted, down to one without proofs. */
  lemma {:induction false} EveryTokenOfPathClaims(path: seq<Token>, required: Capability, audience: string, at: Setting)
    requires ProofPath(path, required, audience, at)
    ensures forall i :: 0 <= i < |path| ==> path[i].Token? && Claims(path[i].att, required) && path[i].signed
    ensures forall i :: 0 < i < |path| ==> path[i] in path[i - 1].prf && path[i].aud == Some(path[i - 1].iss)
    ensures path[|path| - 1].prf == []
  {
    if |path| > 1 {
      EveryTokenOfPathClaims(path[1..], required, path[0].iss, at);
      forall i | 0 <= i < |path|
        ensures path[i].Token? && Claims(path[i].att, required) && path[i].signed
      {
        if i > 0 {
          assert path[i] == path[1..][i - 1];
        }
      }
      forall i | 0 < i < |path|
        ensures path[i] in path[i - 1].prf && path[i].aud == Some(path[i - 1].iss)
      {
        assert path[i] == path[1..][i - 1];
        if i > 1 {
          assert path[i - 1] == path[1..][i - 2];
        }
      }
    }
  }

  /** What a delegated token is granted, some proof addressed to its issuer is granted too. */
  lemma DelegatedNeverExceedsProofs(t: Token, required: Capability, audience: string, at: Setting)
    requires Verify(t, required, audience, at) == Granted && t.prf != []
    ensures exists p :: p in t.prf && Verify(p, required, t.iss, at) == Granted
  {
    FirstGrantSome(t, |t.prf|, required, at);
  }

  /** Who is granted a capability is granted all it covers, exactly unless a proof not claiming the wide one crashes. */
  lemma NarrowerIsGranted(t: Token, wide: Capability, narrow: Capability, audience: string, at: Setting)
    requires Covers(wide, narrow) && Verify(t, wide, audience, at) == Granted
    ensures Verify(t, narrow, audience, at) == if Crashing(t, narrow, audience, at) then Crashed else Granted
    ensures Harmless(t, at) ==> Verify(t, narrow, audience, at) == Granted
  {
    OutcomeReads(t, narrow, audience, at);
    NarrowerIsNotDenied(t, wide, narrow, audience, at);
    if Harmless(t, at) {
      var path := GrantedHasPath(t, wide, audience, at);
      NarrowPath(path, wide, narrow, audience, at);
      PathGrants(path, narrow, audience, at);
    }
  }

  lemma NarrowerIsClaimed(att: seq<Entry>, wide: Capability, narrow: Capability)
    requires Claims(att, wide) && Covers(wide, narrow)
    ensures Claims(att, narrow)
  {
    var i :| 0 <= i < |att| && Covers(Grant(att[i]), wide);
    CoversTransitive(Grant(att[i]), wide, narrow);
  }

  lemma {:induction false} NarrowerIsNotDenied(
    t: Token, wide: Capability, narrow: Capability, audience: string, at: Setting)
    requires Covers(wide, narrow) && Verify(t, wide, audience, at) == Granted
    ensures Verify(t, narrow, audience, at) in {Granted, Crashed}
    decreases t
  {
    NarrowerIsClaimed(t.att, wide, narrow);
    if t.prf != [] {
      FirstGrantSome(t, |t.prf|, wide, at);
      var k :| 0 <= k < |t.prf| && Verify(t.prf[k], wide, t.iss, at) == Granted;
      NarrowerIsNotDenied(t.prf[k], wide, narrow, t.iss, at);
      FirstGrantAtLatest(t, |t.prf|, k, narrow, at);
    }
  }

  /** The loop does not run past a proof that is granted or crashes. */
  lemma {:induction false} FirstGrantAtLatest(t: Token, n: nat, k: nat, required: Capability, at: Setting)
    requires t.Token? && |t.prf| - n <= k < |t.prf| && n <= |t.prf|
    requires Verify(t.prf[k], required, t.iss, at) in {Granted, Crashed}
    ensures FirstGrant(t, n, required, at) in {Some(Granted), Some(Crashed)}
    decreases n
  {
    if k != |t.prf| - n {
      FirstGrantAtLatest(t, n - 1, k, required, at);
    }
  }

  lemma {:induction false} NarrowPath(
    path: seq<Token>, wide: Capability, narrow: Capability, audience: string, at: Setting)
    requires ProofPath(path, wide, audience, at) && Covers(wide, narrow)
    ensures ProofPath(path, narrow, audience, at)
  {
    NarrowerIsClaimed(path[0].att, wide, narrow);
    if |path| > 1 {
      NarrowPath(path[1..], wide, narrow, path[0].iss, at);
    }
  }

  /**
   Any proof that crashes, at any place and for any reason below it, ends the verification of a token that is in order,
   whatever the proofs after it would grant, unless one before it is granted.
   */
  lemma CrashingProofBlocks(t: Token, k: nat, required: Capability, audience: string, at: Setting)
    requires Sound(t, required, audience, at) && k < |t.prf| && Crashing(t.prf[k], required, t.iss, at)
    ensures Verify(t, required, audience, at) == Crashed <==>
            forall j :: 0 <= j < k ==> Verify(t.prf[j], required, t.iss, at) != Granted ||
                                       exists i :: 0 <= i < j && Crashing(t.prf[i], required, t.iss, at)
  {
    OutcomeReads(t, required, audience, at);
    forall j | 0 <= j < |t.prf|
      ensures Verify(t.prf[j], required, t.iss, at) == Granted <==> Granting(t.prf[j], required, t.iss, at)
      ensures !(Granting(t.prf[j], required, t.iss, at) && Crashing(t.prf[j], required, t.iss, at))
    {
      OutcomeReads(t.prf[j], required, t.iss, at);
    }
    var m := FirstToCrash(t, k, required, at);
    if forall j :: 0 <= j < m ==> !Granting(t.prf[j], required, t.iss, at) {
      assert FirstCrashing(t, m, required, at);
    }
    if CrashesFirst(t, required, at) {
      var c :| 0 <= c < |t.prf| && FirstCrashing(t, c, required, at);
    }
  }

  lemma {:induction false} FirstToCrash(t: Token, k: nat, required: Capability, at: Setting) returns (m: nat)
    requires t.Token? && k < |t.prf| && Crashing(t.prf[k], required, t.iss, at)
    ensures m <= k && Crashing(t.prf[m], required, t.iss, at)
    ensures forall j :: 0 <= j < m ==> !Crashing(t.prf[j], required, t.iss, at)
  {
    if j :| 0 <= j < k && Crashing(t.prf[j], required, t.iss, at) {
      m := FirstToCrash(t, j, required, at);
    } else {
      m := k;
    }
  }

  // ---- Tokens at which verification crashes ----

  const READ := Capability("docs/a", "read")
  const READ_ENTRY := Entry(Some("docs/a"), Some("read"))
  const READ_ALL := Entry(Some("docs/*"), Some("read"))

  /** At time 0, every issuer but "gone" has a key. */
  const WORLD := Setting(0, iss => if iss == "gone" then Unresolvable else Key)

  function Issued(iss: string, aud: string, att: seq<Entry>, prf: seq<Token>): Token {
    Token(iss, Some(aud), 0, 100, att, prf, true)
  }

  /** A good proof that stands after one whose issuer cannot be resolved is never tried. */
  lemma LostIssuerBeforeGoodProof()
    ensures var lost, good := Issued("gone", "user", [READ_ENTRY], []), Issued("owner", "user", [READ_ENTRY], []);
            && Verify(good, READ, "user", WORLD) == Granted
            && Verify(Issued("user", "app", [READ_ENTRY], [good, lost]), READ, "app", WORLD) == Granted
            && Verify(Issued("user", "app", [READ_ENTRY], [lost, good]), READ, "app", WORLD) == Crashed
  {
    assert Covers(Grant([READ_ENTRY][0]), READ);
    var lost, good := Issued("gone", "user", [READ_ENTRY], []), Issued("owner", "user", [READ_ENTRY], []);
    assert FirstGrant(Issued("user", "app", [READ_ENTRY], [good, lost]), 2, READ, WORLD) == Some(Granted);
    assert FirstGrant(Issued("user", "app", [READ_ENTRY], [lost, good]), 2, READ, WORLD) == Some(Crashed);
  }

  /** An entry without an ability makes a token crash that claims what is asked for. */
  lemma IncompleteEntryCrashes()
    ensures var att := [READ_ENTRY, Entry(Some("docs/b"), None)];
            Claims(att, READ) && Verify(Issued("owner", "app", att, []), READ, "app", WORLD) == Crashed
  {
    var att := [READ_ENTRY, Entry(Some("docs/b"), None)];
    assert Covers(Grant(att[0]), READ) && att[1].ability.None?;
  }

  /** All below docs is granted but a document in it is not: the first proof claims only that one, and then crashes. */
  lemma NarrowerMayCrash()
    ensures var lost := Issued("gone", "friend", [READ_ENTRY], []);
            var t := Issued("user", "app", [READ_ALL],
              [Issued("friend", "user", [READ_ENTRY], [lost]), Issued("owner", "user", [READ_ALL], [])]);
            && Covers(Grant(READ_ALL), READ)
            && Verify(t, Grant(READ_ALL), "app", WORLD) == Granted
            && Verify(t, READ, "app", WORLD) == Crashed
  {
    var all := Grant(READ_ALL);
    var lost := Issued("gone", "friend", [READ_ENTRY], []);
    var friend, owner := Issued("friend", "user", [READ_ENTRY], [lost]), Issued("owner", "user", [READ_ALL], []);
    var t := Issued("user", "app", [READ_ALL], [friend, owner]);
    WildcardCoversExactlyBelow("docs", "docs/a");
    assert "docs" + "/*" == "docs/*" && "docs" + "/" + "a" == "docs/a";
    assert Covers(Grant([READ_ALL][0]), all) && Covers(Grant([READ_ALL][0]), READ);
    assert Covers(Grant([READ_ENTRY][0]), READ);
    assert !Covers(Grant([READ_ENTRY][0]), all) by {
      assert !EndsWith("docs/a", "/*");
    }
    assert Verify(friend, all, "user", WORLD) == Denied && Verify(owner, all, "user", WORLD) == Granted;
    assert FirstGrant(t, 1, all, WORLD) == Some(Granted);
    assert FirstGrant(friend, 1, READ, WORLD) == Some(Crashed);
    assert FirstGrant(t, 2, READ, WORLD) == Some(Crashed);
  }
}
