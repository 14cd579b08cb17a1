/**
  Delegation chains of RFC 8693. The identity layer parses the nested `act` claim at a fixed depth;
  the audit layer later binds the chain to its own depth, re-parsing the raw claim when it wants more
  than was kept. The parser itself belongs to another library; what is assumed of it is `MeetsContract`.
*/
module Delegation {
  import opened Options

  const DEFAULT_MAX_DEPTH := 10

  datatype Actor = Actor(issuer: string, subject: string)

  /** A well-formed `act` claim: the current actor and, nested inside it, the one it acted for. */
  datatype Act = Act(actor: Actor, prior: Option<Act>)

  /** A claim value as decoded from JSON; anything that is not a nested actor stands as text. */
  datatype Claim = Null | Text(text: string) | Nested(act: Act)

  type Claims = map<string, Claim>

  datatype Chain = Chain(hops: seq<Actor>, truncated: bool, omitted: nat, malformed: bool)
  {
    predicate IsZero() {
      hops == [] && !malformed
    }
  }

  datatype Identity = Identity(subject: string, claims: Claims, chain: Option<Chain>)

  type Parser = (Claim, int) -> Chain

  // ----- The assumed parser -----

  /** The actors of a nested claim, the current one first. */
  function Hops(a: Act): seq<Actor>
  {
    [a.actor] + if a.prior.None? then [] else Hops(a.prior.value)
  }

  /** The outermost hops up to a depth, with the rest counted. */
  function Bounded(hops: seq<Actor>, depth: nat): Chain
  {
    if |hops| <= depth then Chain(hops, false, 0, false)
    else Chain(hops[..depth], true, |hops| - depth, false)
  }

  ghost predicate MeetsContract(parse: Parser)
  {
    forall a: Act, depth: int :: depth > 0 ==> parse(Nested(a), depth) == Bounded(Hops(a), depth)
  }

  /** A parser that walks the nesting once: one hop a level, counting instead of keeping once the depth is used up. */
  function Walk(a: Act, depth: nat): (c: Chain)
    ensures c == Bounded(Hops(a), depth)
  {
    var rest :=
      if a.prior.None? then Chain([], false, 0, false)
      else Walk(a.prior.value, if depth == 0 then 0 else depth - 1);
    if depth == 0 then rest.(truncated := true, omitted := rest.omitted + 1)
    else rest.(hops := [a.actor] + rest.hops)
  }

  /** The assumption can be met: by a one-pass walk. */
  lemma ContractCanBeMet() returns (parse: Parser)
    ensures MeetsContract(parse)
  {
    parse := (claim: Claim, depth: int) =>
      if claim.Nested? && depth >= 0 then Walk(claim.act, depth) else Chain([], false, 0, true);
  }

  // ----- The identity layer -----

  const INTERNAL_CLAIMS := ["tsid"]

  /** The copy loop of `filterInternalClaims`, key by key in any order. */
  method CopyClaims(claims: Claims) returns (copy: Claims)
    ensures copy == claims
  {
    copy := map[];
    var left := claims.Keys;
    while left != {}
      invariant left <= claims.Keys && copy.Keys == claims.Keys - left
      invariant forall k :: k in copy ==> copy[k] == claims[k]
      decreases |left|
    {
      var k :| k in left;
      copy := copy[k := claims[k]];
      left := left - {k};
    }
  }

  /** The delete loop, for any list of keys, present or not and repeated or not. */
  method DeleteKeys(claims: Claims, keys: seq<string>) returns (filtered: Claims)
    ensures filtered == claims - (set k | k in keys)
  {
    filtered := claims;
    var i := 0;
    while i < |keys|
      invariant 0 <= i <= |keys|
      invariant filtered == claims - (set k | k in keys[..i])
    {
      filtered := filtered - {keys[i]};
      assert keys[..i + 1] == keys[..i] + [keys[i]];
      i := i + 1;
    }
    assert keys[..i] == keys;
  }

  /** `filterInternalClaims`: a copy without the internal keys. */
  method FilterInternalClaims(claims: Claims) returns (filtered: Claims)
    ensures filtered == claims - {"tsid"}
  {
    var copy := CopyClaims(claims);
    filtered := DeleteKeys(copy, INTERNAL_CLAIMS);
    assert (set k | k in INTERNAL_CLAIMS) == {"tsid"};
  }

  /** `claimsToIdentity`: refused without a subject, otherwise with the chain parsed at the default depth. */
  function ClaimsToIdentity(parse: Parser, claims: Claims): Option<Identity>
  {
    if "sub" !in claims || !claims["sub"].Text? || claims["sub"].text == "" then None
    else
      var chain :=
        if "act" in claims && !claims["act"].Null? then
          var parsed := parse(claims["act"], DEFAULT_MAX_DEPTH);
          if parsed.IsZero() then None else Some(parsed)
        else None;
      Some(Identity(claims["sub"].text, claims - {"tsid"}, chain))
  }

  /** The same, step by step, with the filter that copies and deletes. */
  method MakeIdentity(parse: Parser, claims: Claims) returns (identity: Option<Identity>)
    ensures identity == ClaimsToIdentity(parse, claims)
  {
    if "sub" !in claims || !claims["sub"].Text? || claims["sub"].text == "" {
      return None;
    }
    var filtered := FilterInternalClaims(claims);
    var chain: Option<Chain> := None;
    if "act" in claims && !claims["act"].Null? {
      var parsed := parse(claims["act"], DEFAULT_MAX_DEPTH);
      if !parsed.IsZero() {
        chain := Some(parsed);
      }
    }
    return Some(Identity(claims["sub"].text, filtered, chain));
  }

  /**
    An identity is made exactly for a non-empty subject. It carries that subject, every claim but the token
    session id, and, whatever its parser answers, the chain of a claim that is there, parsed ten deep,
    unless that answer has neither hops nor a defect to report.
  */
  lemma IdentityHolds(parse: Parser, claims: Claims)
    ensures ClaimsToIdentity(parse, claims).Some? <==>
              exists name :: name != "" && "sub" in claims && claims["sub"] == Text(name)
    ensures ClaimsToIdentity(parse, claims).Some? ==>
              var identity := ClaimsToIdentity(parse, claims).value;
              && claims["sub"] == Text(identity.subject)
              && "tsid" !in identity.claims
              && (forall k :: k in claims && k != "tsid" ==> k in identity.claims && identity.claims[k] == claims[k])
              && (forall k :: k in identity.claims ==> k in claims)
              && (identity.chain.Some? <==>
                    && "act" in claims && claims["act"] != Null
                    && (parse(claims["act"], 10).hops != [] || parse(claims["act"], 10).malformed))
              && (identity.chain.Some? ==> identity.chain.value == parse(claims["act"], 10))
  {
    if ClaimsToIdentity(parse, claims).Some? {
      assert claims["sub"] == Text(claims["sub"].text);
    }
  }

  // ----- The audit layer -----

  function Effective(maxDepth: int): nat
  {
    if maxDepth <= 0 then DEFAULT_MAX_DEPTH else maxDepth
  }

  /** `rebindDelegationChain` */
  function Rebind(chain: Chain, maxDepth: int): Chain
  {
    var depth := Effective(maxDepth);
    if |chain.hops| <= depth then chain
    else chain.(omitted := chain.omitted + |chain.hops| - depth, hops := chain.hops[..depth], truncated := true)
  }

  function RawAct(claims: Claims): Claim
  {
    if "act" in claims then claims["act"] else Null
  }

  predicate IsZeroChain(chain: Option<Chain>)
  {
    chain.None? || chain.value.IsZero()
  }

  /** `extractDelegationChainFromIdentity` */
  function Extract(parse: Parser, identity: Option<Identity>, maxDepth: int): Option<Chain>
  {
    if identity.None? then None
    else
      var raw := RawAct(identity.value.claims);
      var chain := identity.value.chain;
      var existing := if chain.None? then 0 else |chain.value.hops|;
      var parsed := parse(raw, maxDepth);
      if !raw.Null? && (IsZeroChain(chain) || (chain.value.truncated && maxDepth > existing))
         && !parsed.IsZero() && |parsed.hops| >= existing then Some(parsed)
      else if IsZeroChain(chain) then None
      else Some(Rebind(chain.value, maxDepth))
  }

  // ----- Properties -----

  /** Binding a chain that was already bound gives what binding it once would have given. */
  lemma RebindBounded(hops: seq<Actor>, kept: nat, maxDepth: int)
    requires Effective(maxDepth) <= kept || |hops| <= kept
    ensures Rebind(Bounded(hops, kept), maxDepth) == Bounded(hops, Effective(maxDepth))
  {
    var depth := Effective(maxDepth);
    if depth < |hops| && kept < |hops| {
      assert hops[..kept][..depth] == hops[..depth];
    }
  }

  /**
    Two stages are one: for every nesting of actors and every configured depth, extracting from an
    identity that was parsed at the default depth gives the chain a direct parse at that depth gives,
    whether that widens or narrows it. A depth that is not positive counts as the default.
  */
  lemma TwoStagesAreOne(parse: Parser, claims: Claims, a: Act, maxDepth: int)
    requires MeetsContract(parse)
    requires "act" in claims && claims["act"] == Nested(a)
    requires ClaimsToIdentity(parse, claims).Some?
    ensures Extract(parse, ClaimsToIdentity(parse, claims), maxDepth) == Some(parse(Nested(a), Effective(maxDepth)))
  {
    var hops := Hops(a);
    var chain := Bounded(hops, DEFAULT_MAX_DEPTH);
    assert parse(Nested(a), DEFAULT_MAX_DEPTH) == chain && !chain.IsZero();
    assert RawAct(claims - {"tsid"}) == Nested(a);
    assert parse(Nested(a), Effective(maxDepth)) == Bounded(hops, Effective(maxDepth));
    if chain.truncated && maxDepth > |chain.hops| {
      assert parse(Nested(a), maxDepth) == Bounded(hops, maxDepth);
    } else {
      RebindBounded(hops, DEFAULT_MAX_DEPTH, maxDepth);
    }
  }

  /** Without an `act` claim there is no chain. */
  lemma NoClaimNoChain(parse: Parser, claims: Claims, maxDepth: int)
    requires "act" !in claims || claims["act"].Null?
    ensures Extract(parse, ClaimsToIdentity(parse, claims), maxDepth) == None
  {
  }

  /** An identity that carries the claim but no parsed chain is parsed at the wanted depth on the spot. */
  lemma LateParse(parse: Parser, identity: Identity, maxDepth: int)
    requires identity.chain.None? && "act" in identity.claims && identity.claims["act"] != Null
    ensures var parsed := parse(identity.claims["act"], maxDepth);
            Extract(parse, Some(identity), maxDepth)
            == if parsed.hops != [] || parsed.malformed then Some(parsed) else None
    ensures MeetsContract(parse) && maxDepth > 0 && identity.claims["act"].Nested? ==>
              Extract(parse, Some(identity), maxDepth)
              == Some(Bounded(Hops(identity.claims["act"].act), maxDepth))
  {
    var claim := identity.claims["act"];
    if MeetsContract(parse) && maxDepth > 0 && claim.Nested? {
      assert parse(Nested(claim.act), maxDepth) == Bounded(Hops(claim.act), maxDepth);
    }
  }

  /**
    Whatever the parser answers, for any claim: a chain the identity carries is never lost and never
    cut below the configured depth by looking at the raw claim again, and the raw claim has a say only
    when a truncated chain is asked to widen.
  */
  lemma NeverNarrowed(parse: Parser, identity: Identity, maxDepth: int)
    requires identity.chain.Some? && (identity.chain.value.hops != [] || identity.chain.value.malformed)
    ensures var r := Extract(parse, Some(identity), maxDepth);
            var chain := identity.chain.value;
            && r.Some?
            && (|r.value.hops| >= |chain.hops| || |r.value.hops| == if maxDepth > 0 then maxDepth else 10)
            && (!chain.truncated || maxDepth <= |chain.hops| || RawAct(identity.claims).Null?
                ==> r.value == Rebind(chain, maxDepth))
            && (chain.truncated && maxDepth > |chain.hops| && !RawAct(identity.claims).Null? ==>
                  var parsed := parse(RawAct(identity.claims), maxDepth);
                  r.value == if (parsed.hops != [] || parsed.malformed) && |parsed.hops| >= |chain.hops| then parsed
                             else Rebind(chain, maxDepth))
  {
  }

  /** Rebinding conserves the hops, keeps the outermost ones in order and only marks what it cut. */
  lemma RebindConserves(chain: Chain, maxDepth: int)
    ensures var r := Rebind(chain, maxDepth);
            && |r.hops| + r.omitted == |chain.hops| + chain.omitted
            && r.hops <= chain.hops && |r.hops| <= (if maxDepth > 0 then maxDepth else 10)
            && (|r.hops| < |chain.hops| ==> |r.hops| == if maxDepth > 0 then maxDepth else 10)
            && (chain.hops != [] ==> r.hops != [] && r.hops[0] == chain.hops[0])
            && (r.truncated <==> chain.truncated || |r.hops| < |chain.hops|)
            && r.malformed == chain.malformed
  {
  }

  /** Rebinding twice is rebinding once at the smaller depth, in either order. */
  lemma RebindComposes(chain: Chain, a: int, b: int)
    ensures var least := if Effective(a) <= Effective(b) then a else b;
            && Rebind(Rebind(chain, a), b) == Rebind(chain, least)
            && Rebind(Rebind(chain, b), a) == Rebind(chain, least)
  {
    var m, n := Effective(a), Effective(b);
    if m < |chain.hops| && n < |chain.hops| {
      if n <= m { assert chain.hops[..m][..n] == chain.hops[..n]; }
      if m <= n { assert chain.hops[..n][..m] == chain.hops[..m]; }
    }
  }
}
