/**
  The token validator as an object whose calls do not overlap, and the proof that each such call is a
  run of the machine in `JwksMachine`.
*/
module TokenValidator {
  import opened Options
  import opened JwksMachine

  /** A public key of the local provider. */
  datatype PublicKey = PublicKey(id: string, material: string)

  /**
    What the world outside the validator answers during one call: the discovery document's jwks_uri,
    whether the token parses far enough to need a key, its key id (absent when the header is refused),
    the provider's keys (absent when it fails), and whether the cache accepts the registration.
  */
  datatype Answers = Answers(
    doc: Option<string>, needed: bool, kid: Option<string>, localKeys: Option<seq<PublicKey>>, registers: bool)

  /** How a call ends, as far as discovery and key lookup go. */
  datatype Verdict =
    | DiscoveryFailed
    | NoKeyNeeded
    | LocalKeyFound(key: PublicKey)
    | HeaderRefused
    | MissingUrl
    | RegistrationFailed
    | LookedUp(url: string, kid: string)

  datatype Memory = Memory(url: string, discovered: bool, registered: bool, cache: set<string>)

  predicate Finds(doc: Option<string>)
  {
    doc.Some? && doc.value != ""
  }

  /** Whether a call attempts discovery at all. */
  predicate MustDiscover(c: Config, m: Memory)
  {
    c.issuer != "" && !m.discovered && m.url == ""
  }

  function AfterDiscovery(c: Config, m: Memory, doc: Option<string>): Memory
  {
    if !MustDiscover(c, m) then m
    else if Finds(doc) then m.(url := doc.value, discovered := true, registered := false)
    else m.(discovered := c.hasProvider)
  }

  /** Where in the list the provider's first key with this id is, or the length of the list. */
  function IndexOf(keys: seq<PublicKey>, kid: string): (i: nat)
    ensures i <= |keys| && (i < |keys| ==> keys[i].id == kid)
    ensures forall j :: 0 <= j < i ==> keys[j].id != kid
  {
    if keys == [] || keys[0].id == kid then 0 else 1 + IndexOf(keys[1..], kid)
  }

  /** The key is in the list, it has the id, and no key before it does. */
  predicate IsFirstWithId(keys: seq<PublicKey>, kid: string, key: PublicKey)
  {
    exists i :: 0 <= i < |keys| && keys[i] == key && key.id == kid && forall j :: 0 <= j < i ==> keys[j].id != kid
  }

  /** The provider has a key with the token's id. */
  predicate HasLocalKey(c: Config, a: Answers)
  {
    && c.hasProvider && a.kid.Some? && a.localKeys.Some?
    && exists i :: 0 <= i < |a.localKeys.value| && a.localKeys.value[i].id == a.kid.value
  }

  /** What the local provider settles on its own: a refused header or a key, in that order. */
  function LocalVerdict(c: Config, a: Answers): Option<Verdict>
  {
    if !c.hasProvider then None
    else if a.kid.None? then Some(HeaderRefused)
    else if a.localKeys.None? then None
    else
      var i := IndexOf(a.localKeys.value, a.kid.value);
      if i < |a.localKeys.value| then Some(LocalKeyFound(a.localKeys.value[i])) else None
  }

  /** A key is found exactly when the provider has one with the token's id, and it is the first such key. */
  lemma LocalKeyIsFirst(c: Config, a: Answers)
    ensures var v := LocalVerdict(c, a);
            && (v.Some? && v.value.LocalKeyFound? <==> HasLocalKey(c, a))
            && (HasLocalKey(c, a) ==> IsFirstWithId(a.localKeys.value, a.kid.value, v.value.key))
            && (v == Some(HeaderRefused) <==> c.hasProvider && a.kid.None?)
            && (v.None? || v.value.LocalKeyFound? || v.value.HeaderRefused?)
  {
  }

  function AfterRegistration(m: Memory, registers: bool): Memory
  {
    if m.registered || !registers then m else m.(registered := true, cache := m.cache + {m.url})
  }

  function KeyVerdict(c: Config, m: Memory, a: Answers): Verdict
  {
    if LocalVerdict(c, a).Some? then LocalVerdict(c, a).value
    else if m.url == "" then MissingUrl
    else if !m.registered && !a.registers then RegistrationFailed
    else if a.kid.None? then HeaderRefused
    else LookedUp(m.url, a.kid.value)
  }

  function AfterKey(c: Config, m: Memory, a: Answers): Memory
  {
    if LocalVerdict(c, a).Some? || m.url == "" then m else AfterRegistration(m, a.registers)
  }

  predicate GivesUp(c: Config, m: Memory, a: Answers)
  {
    MustDiscover(c, m) && !Finds(a.doc) && !c.hasProvider
  }

  function CallVerdict(c: Config, m: Memory, a: Answers): Verdict
  {
    if GivesUp(c, m, a) then DiscoveryFailed
    else if !a.needed then NoKeyNeeded
    else KeyVerdict(c, AfterDiscovery(c, m, a.doc), a)
  }

  function AfterCall(c: Config, m: Memory, a: Answers): Memory
  {
    var m' := AfterDiscovery(c, m, a.doc);
    if GivesUp(c, m, a) || !a.needed then m' else AfterKey(c, m', a)
  }

  class Validator {
    const config: Config
    var jwksURL: string
    var oidcDiscovered: bool
    var jwksRegistered: bool
    var cached: set<string>

    ghost function View(): Memory
      reads this
    {
      Memory(jwksURL, oidcDiscovered, jwksRegistered, cached)
    }

    constructor (config: Config, url: string)
      ensures this.config == config && View() == Memory(url, false, false, {})
    {
      this.config := config;
      jwksURL, oidcDiscovered, jwksRegistered, cached := url, false, false, {};
    }

    method EnsureOIDCDiscovered(doc: Option<string>) returns (ok: bool)
      modifies this
      ensures ok <==> !(MustDiscover(config, old(View())) && !Finds(doc))
      ensures View() == if ok then AfterDiscovery(config, old(View()), doc) else old(View())
    {
      if config.issuer == "" {
        return true;
      }
      if oidcDiscovered || jwksURL != "" {
        return true;
      }
      if doc.None? || doc.value == "" {
        return false;
      }
      jwksURL := doc.value;
      oidcDiscovered := true;
      jwksRegistered := false;
      return true;
    }

    method EnsureJWKSRegistered(registers: bool) returns (ok: bool)
      modifies this
      ensures View() == AfterRegistration(old(View()), registers)
      ensures ok <==> View().registered
    {
      if jwksRegistered {
        return true;
      }
      if !registers {
        return false;
      }
      cached := cached + {jwksURL};
      jwksRegistered := true;
      return true;
    }

    method GetKeyFromLocalProvider(a: Answers) returns (v: Option<Verdict>)
      ensures v == LocalVerdict(config, a)
      // A key is found exactly when the provider has one with the token's id, and it is the first such key.
      ensures v.Some? && v.value.LocalKeyFound? <==> HasLocalKey(config, a)
      ensures HasLocalKey(config, a) ==> IsFirstWithId(a.localKeys.value, a.kid.value, v.value.key)
    {
      LocalKeyIsFirst(config, a);
      if !config.hasProvider {
        return None;
      }
      if a.kid.None? {
        return Some(HeaderRefused);
      }
      if a.localKeys.None? {
        return None;
      }
      var keys, i := a.localKeys.value, 0;
      while i < |keys|
        invariant 0 <= i <= |keys|
        invariant IndexOf(keys, a.kid.value) == i + IndexOf(keys[i..], a.kid.value)
      {
        if keys[i].id == a.kid.value {
          return Some(LocalKeyFound(keys[i]));
        }
        assert keys[i..][1..] == keys[i + 1..];
        i := i + 1;
      }
      return None;
    }

    method GetKeyFromJWKS(a: Answers) returns (v: Verdict)
      modifies this
      ensures v == KeyVerdict(config, old(View()), a)
      ensures View() == AfterKey(config, old(View()), a)
    {
      var settled := GetKeyFromLocalProvider(a);
      if settled.Some? {
        return settled.value;
      }
      if jwksURL == "" {
        return MissingUrl;
      }
      var ok := EnsureJWKSRegistered(a.registers);
      if !ok {
        return RegistrationFailed;
      }
      if a.kid.None? {
        return HeaderRefused;
      }
      return LookedUp(jwksURL, a.kid.value);
    }

    method ValidateToken(a: Answers) returns (v: Verdict)
      modifies this
      ensures v == CallVerdict(config, old(View()), a)
      ensures View() == AfterCall(config, old(View()), a)
    {
      var ok := EnsureOIDCDiscovered(a.doc);
      if !ok {
        if !config.hasProvider {
          return DiscoveryFailed;
        }
        oidcDiscovered := true;
      }
      if !a.needed {
        return NoKeyNeeded;
      }
      v := GetKeyFromJWKS(a);
    }
  }

  // ----- What a call answers -----

  /** The provider is asked first; a key it has settles the matter before URL and registration are looked at. */
  lemma LocalKeyFirst(c: Config, m: Memory, a: Answers)
    ensures KeyVerdict(c, m, a).LocalKeyFound? <==> HasLocalKey(c, a)
    ensures HasLocalKey(c, a) ==> IsFirstWithId(a.localKeys.value, a.kid.value, KeyVerdict(c, m, a).key)
    ensures HasLocalKey(c, a) ==> AfterKey(c, m, a) == m
  {
    LocalKeyIsFirst(c, a);
  }

  /** The provider settles nothing: there is none, or the header is sound and no key of its fits. */
  predicate PastProvider(c: Config, a: Answers)
  {
    c.hasProvider ==> a.kid.Some? && !HasLocalKey(c, a)
  }

  /**
    The verdicts of the key path, each with its exact condition, in the order of the tests: a missing URL
    comes before registration, and registration before the header, which a provider has already looked at.
  */
  lemma KeyVerdicts(c: Config, m: Memory, a: Answers)
    ensures var v := KeyVerdict(c, m, a); var m' := AfterKey(c, m, a);
            && (v == MissingUrl <==> PastProvider(c, a) && m.url == "")
            && (v == RegistrationFailed <==> PastProvider(c, a) && m.url != "" && !m.registered && !a.registers)
            && (v == HeaderRefused <==>
                  a.kid.None? && (c.hasProvider || (m.url != "" && (m.registered || a.registers))))
            && (v.LookedUp? <==> PastProvider(c, a) && m.url != "" && (m.registered || a.registers) && a.kid.Some?)
            && (v.LookedUp? ==> v.url == m'.url == m.url && v.kid == a.kid.value && m'.registered)
            && (v == HeaderRefused && !c.hasProvider ==> m'.registered)
            && (m'.registered && !m.registered ==> m'.cache == m.cache + {m.url})
            && (m'.registered == m.registered ==> m' == m)
  {
    LocalKeyIsFirst(c, a);
  }

  /** The verdicts of a whole call: only a failed discovery without a provider ends it before the token is parsed. */
  lemma CallVerdicts(c: Config, m: Memory, a: Answers)
    ensures var v := CallVerdict(c, m, a); var found := a.doc.Some? && a.doc.value != "";
            var due := c.issuer != "" && !m.discovered && m.url == "";
            && (v == DiscoveryFailed <==> due && !found && !c.hasProvider)
            && (v == DiscoveryFailed ==> AfterCall(c, m, a) == m)
            && (v == NoKeyNeeded <==> !a.needed && v != DiscoveryFailed)
            && (v != DiscoveryFailed ==>
                  var m1 := if !due then m
                            else if found then Memory(a.doc.value, true, false, m.cache)
                            else Memory("", true, m.registered, m.cache);
                  && AfterCall(c, m, a) == (if a.needed then AfterKey(c, m1, a) else m1)
                  && (a.needed ==> v == KeyVerdict(c, m1, a)))
  {
    LocalKeyIsFirst(c, a);
  }

  // ----- Histories of calls -----

  function AfterCalls(c: Config, m: Memory, calls: seq<Answers>): Memory
    decreases |calls|
  {
    if calls == [] then m else AfterCalls(c, AfterCall(c, m, calls[0]), calls[1..])
  }

  /** The first document found among the calls, or nothing. */
  function FirstFound(calls: seq<Answers>): string
  {
    if calls == [] then ""
    else if Finds(calls[0].doc) then calls[0].doc.value
    else FirstFound(calls[1..])
  }

  /** Once the URL is there, or discovery is marked as done, no call changes the URL. */
  lemma {:induction false} SettledUrl(c: Config, m: Memory, calls: seq<Answers>)
    requires m.url != "" || m.discovered
    ensures AfterCalls(c, m, calls).url == m.url
    decreases |calls|
  {
    if calls != [] {
      SettledUrl(c, AfterCall(c, m, calls[0]), calls[1..]);
    }
  }

  lemma {:induction false} RetriedUntilFound(c: Config, m: Memory, calls: seq<Answers>)
    requires c.issuer != "" && !c.hasProvider && m.url == "" && !m.discovered
    ensures AfterCalls(c, m, calls).url == FirstFound(calls)
    decreases |calls|
  {
    if calls != [] {
      var m' := AfterCall(c, m, calls[0]);
      if Finds(calls[0].doc) {
        SettledUrl(c, m', calls[1..]);
      } else {
        RetriedUntilFound(c, m', calls[1..]);
      }
    }
  }

  /**
    For every history of failed and successful discoveries: without a local key provider the URL is the
    first one any call found, however many failed before it; with one, only the very first call counts.
  */
  lemma WhichDiscoveryCounts(c: Config, calls: seq<Answers>)
    requires c.issuer != ""
    ensures AfterCalls(c, Memory("", false, false, {}), calls).url
            == if c.hasProvider then FirstFound(calls[..if calls == [] then 0 else 1]) else FirstFound(calls)
  {
    var m := Memory("", false, false, {});
    if !c.hasProvider {
      RetriedUntilFound(c, m, calls);
    } else if calls != [] {
      SettledUrl(c, AfterCall(c, m, calls[0]), calls[1..]);
      assert calls[..1] == [calls[0]];
    }
  }

  // ----- Each call is a run of the machine -----

  function MemoryOf(g: Shared): Memory
  {
    Memory(g.url, g.discovered, g.registered, g.cache)
  }

  predicate LocksFree(g: Shared)
  {
    g.discMu.None? && g.regMu.None?
  }

  predicate OnlyMoved(s: State, s': State, t: Tid, pc: PC)
  {
    s'.pcs == s.pcs[t := pc] && LocksFree(s'.sh)
  }

  lemma MovedTwice(s: State, s1: State, s2: State, t: Tid, pc1: PC, pc2: PC)
    requires OnlyMoved(s, s1, t, pc1) && OnlyMoved(s1, s2, t, pc2)
    ensures OnlyMoved(s, s2, t, pc2)
  {
    assert s.pcs[t := pc1][t := pc2] == s.pcs[t := pc2];
  }

  /** A discovery that found its document fills in the URL. */
  lemma FillBegins(c: Config, s0: State, s: State, t: Tid) returns (s': State)
    requires Leads(c, s0, s) && s.Pc(t).WriteUrl? && s.sh.regMu.None?
    ensures Leads(c, s0, s') && s'.pcs == s.pcs[t := ResetLock] && s'.sh.regMu.None?
    ensures MemoryOf(s'.sh) == MemoryOf(s.sh).(url := s.Pc(t).uri, discovered := true)
  {
    s' := ThenDiscovery(c, s0, s, t, Proceed);
    s' := ThenDiscovery(c, s0, s', t, Proceed);
    assert s'.pcs == s.pcs[t := ResetLock];
  }

  /** With both locks it resets the registration and leaves the section. */
  lemma ResetRun(c: Config, s0: State, s: State, t: Tid) returns (s': State)
    requires Leads(c, s0, s) && s.Pc(t).Reset?
    ensures Leads(c, s0, s') && OnlyMoved(s, s', t, Parse)
    ensures MemoryOf(s'.sh) == MemoryOf(s.sh).(registered := false)
  {
    s' := ThenDiscovery(c, s0, s, t, Proceed);
    s' := ThenDiscovery(c, s0, s', t, Proceed);
    assert s'.pcs == s.pcs[t := Parse];
  }

  lemma FillRun(c: Config, s0: State, s: State, t: Tid) returns (s': State)
    requires Leads(c, s0, s) && s.Pc(t).WriteUrl? && s.sh.regMu.None?
    ensures Leads(c, s0, s') && OnlyMoved(s, s', t, Parse)
    ensures MemoryOf(s'.sh) == MemoryOf(s.sh).(url := s.Pc(t).uri, discovered := true, registered := false)
  {
    var s1 := FillBegins(c, s0, s, t);
    var s2 := ThenDiscovery(c, s0, s1, t, Proceed);
    assert s2 == State(s1.sh.(regMu := Some(t)), s1.pcs[t := Reset]);
    s' := ResetRun(c, s0, s2, t);
    assert s'.pcs == s.pcs[t := Parse];
  }

  /** The fallback of a failed discovery with a local key provider. */
  lemma FlagRun(c: Config, s0: State, s: State, t: Tid) returns (s': State)
    requires Leads(c, s0, s) && s.Pc(t).FlagLock? && LocksFree(s.sh)
    ensures Leads(c, s0, s') && OnlyMoved(s, s', t, Parse)
    ensures MemoryOf(s'.sh) == MemoryOf(s.sh).(discovered := true)
  {
    s' := ThenDiscovery(c, s0, s, t, Proceed);
    s' := ThenDiscovery(c, s0, s', t, Proceed);
    assert s'.pcs == s.pcs[t := Parse];
  }

  /** The attempt itself: it ends past the section, inside it with a document, or with a failure. */
  lemma AttemptRun(c: Config, s0: State, s: State, t: Tid, doc: Option<string>) returns (s': State)
    requires Leads(c, s0, s) && s.Pc(t).Idle? && LocksFree(s.sh)
    ensures Leads(c, s0, s') && s'.pcs == s.pcs[t := s'.Pc(t)] && s'.sh.regMu.None?
    ensures MemoryOf(s'.sh) == MemoryOf(s.sh)
    ensures
      if !MustDiscover(c, MemoryOf(s.sh)) then s'.Pc(t) == Parse && LocksFree(s'.sh)
      else if Finds(doc) then s'.Pc(t) == WriteUrl(doc.value)
      else s'.Pc(t) == (if c.hasProvider then FlagLock else Idle) && LocksFree(s'.sh)
  {
    s' := ThenDiscovery(c, s0, s, t, Proceed);
    if c.issuer != "" {
      s' := ThenDiscovery(c, s0, s', t, Proceed);
      s' := ThenDiscovery(c, s0, s', t, Proceed);
      if MustDiscover(c, MemoryOf(s.sh)) {
        s' := ThenDiscovery(c, s0, s', t, Discovered(doc));
      }
    }
    assert s'.pcs == s.pcs[t := s'.Pc(t)];
  }

  lemma DiscoveryRun(c: Config, s: State, t: Tid, doc: Option<string>) returns (s': State)
    requires s.Pc(t).Idle? && LocksFree(s.sh)
    ensures Leads(c, s, s') && MemoryOf(s'.sh) == AfterDiscovery(c, MemoryOf(s.sh), doc)
    ensures OnlyMoved(s, s', t,
                      if MustDiscover(c, MemoryOf(s.sh)) && !Finds(doc) && !c.hasProvider then Idle else Parse)
  {
    LeadsNowhere(c, s);
    var mid := AttemptRun(c, s, s, t, doc);
    s' := mid;
    if mid.Pc(t).WriteUrl? {
      s' := FillRun(c, s, mid, t);
      assert s.pcs[t := mid.Pc(t)][t := Parse] == s.pcs[t := Parse];
    } else if mid.Pc(t).FlagLock? {
      s' := FlagRun(c, s, mid, t);
      MovedTwice(s, mid, s', t, mid.Pc(t), Parse);
    }
  }

  /** Past the check for a URL: registration, unless it is done already. */
  lemma RegistrationRun(c: Config, s0: State, s: State, t: Tid, a: Answers) returns (s': State)
    requires Leads(c, s0, s) && s.Pc(t).RegLock? && LocksFree(s.sh)
    ensures Leads(c, s0, s') && MemoryOf(s'.sh) == AfterRegistration(MemoryOf(s.sh), a.registers)
    ensures OnlyMoved(s, s', t, if s'.sh.registered then Header else Idle)
  {
    var s1 := ThenKey(c, s0, s, t, Proceed);
    assert s1 == State(s.sh.(regMu := Some(t)), s.pcs[t := RegCheck]);
    s' := ThenKey(c, s0, s1, t, Proceed);
    if s.sh.registered {
      assert s' == State(s.sh, s.pcs[t := RegCheck][t := Header]);
      assert s'.pcs == s.pcs[t := Header];
    } else {
      assert s' == State(s1.sh, s.pcs[t := RegCheck][t := Registering]);
      s' := RegisterRun(c, s0, s', t, a.registers);
      assert s'.pcs == s.pcs[t := if a.registers then Header else Idle];
    }
  }

  lemma RegisterRun(c: Config, s0: State, s: State, t: Tid, ok: bool) returns (s': State)
    requires Leads(c, s0, s) && s.Pc(t).Registering?
    ensures Leads(c, s0, s') && s'.pcs == s.pcs[t := if ok then Header else Idle]
    ensures s'.sh == if ok then s.sh.(registered := true, cache := s.sh.cache + {s.sh.url}, regMu := None)
                     else s.sh.(regMu := None)
  {
    s' := ThenKey(c, s0, s, t, Registered(ok));
    if ok {
      s' := ThenKey(c, s0, s', t, Proceed);
    }
    assert s'.pcs == s.pcs[t := if ok then Header else Idle];
  }

  lemma HeaderRun(c: Config, s0: State, s: State, t: Tid, valid: bool) returns (s': State)
    requires Leads(c, s0, s) && s.Pc(t).Header? && LocksFree(s.sh)
    ensures Leads(c, s0, s') && s'.sh == s.sh && OnlyMoved(s, s', t, if valid then Lookup else Idle)
  {
    s' := ThenKey(c, s0, s, t, HeaderValid(valid));
  }

  lemma KeyRunBegins(c: Config, s0: State, s: State, t: Tid, a: Answers) returns (s': State)
    requires Leads(c, s0, s) && s.Pc(t).Parse? && LocksFree(s.sh)
    ensures Leads(c, s0, s') && s'.sh == s.sh
    ensures OnlyMoved(s, s', t,
                      if !a.needed || LocalVerdict(c, a).Some? || s.sh.url == "" then Idle else RegLock)
  {
    s' := ThenKey(c, s0, s, t, KeyNeeded(a.needed));
    if a.needed {
      s' := ThenKey(c, s0, s', t, LocalAnswer(LocalVerdict(c, a).Some?));
      if LocalVerdict(c, a).None? {
        s' := ThenKey(c, s0, s', t, Proceed);
      }
    }
    assert s'.pcs == s.pcs[t := s'.Pc(t)];
  }

  /**
    `ValidateToken` without interference is a run of the machine with the effect the object's method
    has, and it stops at the lookup exactly when the method looks a key up.
  */
  lemma ValidateIsARun(c: Config, s: State, t: Tid, a: Answers) returns (s': State)
    requires s.Pc(t).Idle? && LocksFree(s.sh)
    ensures Leads(c, s, s') && MemoryOf(s'.sh) == AfterCall(c, MemoryOf(s.sh), a)
    ensures OnlyMoved(s, s', t, if CallVerdict(c, MemoryOf(s.sh), a).LookedUp? then Lookup else Idle)
    ensures CallVerdict(c, MemoryOf(s.sh), a).LookedUp? ==> CallVerdict(c, MemoryOf(s.sh), a).url == s'.sh.url
  {
    var s1 := DiscoveryRun(c, s, t, a.doc);
    s' := s1;
    if s1.Pc(t).Parse? {
      var s2 := KeyRunBegins(c, s, s1, t, a);
      MovedTwice(s, s1, s2, t, Parse, s2.Pc(t));
      s' := s2;
      if s2.Pc(t).RegLock? {
        var s3 := RegistrationRun(c, s, s2, t, a);
        MovedTwice(s, s2, s3, t, RegLock, s3.Pc(t));
        s' := s3;
        if s3.Pc(t).Header? {
          s' := HeaderRun(c, s, s3, t, a.kid.Some?);
          MovedTwice(s, s3, s', t, Header, s'.Pc(t));
        }
      }
    }
  }
}
