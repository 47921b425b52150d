/** Which requests pass, and what follows for those that do not: the rules of
    sky_security_check_request (src/runtime/security.c:298-341), one by one. */
module RequestRules {
  import opened Wrappers
  import opened RateLimit
  import opened BanList
  import opened Security

  // ----- the findings -----

  predicate HasSqli(r: Request, P: Parts) {
    P.sqli(r.path) || (r.body.Some? && P.sqli(r.body.value))
  }

  predicate HasXss(r: Request, P: Parts) {
    P.xss(r.path) || (r.body.Some? && P.xss(r.body.value))
  }

  predicate HasTraversal(r: Request, P: Parts) {
    P.traversal(r.path)
  }

  predicate HasCommand(r: Request, P: Parts) {
    r.body.Some? && P.command(r.body.value)
  }

  // ----- who is looked at -----

  /** The shield keeps out everybody who is not on the whitelist. */
  predicate KeptOutByShield(e: Engine, r: Request) {
    e.config.shield && r.ip !in e.whitelist
  }

  /** The address is banned for good, or until later than now. */
  ghost predicate BannedNow(e: Engine, ip: string, now: int) {
    var s := Sentences(e.bans);
    ip in s && (s[ip].permanent || now < s[ip].expires)
  }

  /** The rate limiter accepts the call. */
  predicate WithinLimit(e: Engine, r: Request, at: Clock, P: Parts)
    requires e.Sized()
  {
    RateCheck(e.rate, r.ip, P.hash(r.ip), at.counted, e.config.rate).1
  }

  lemma Stops(e: Engine, r: Request, at: Clock, P: Parts)
    requires e.Sized() && Unique(e.bans)
    ensures Lift(e.bans, r.ip, at.lifted).1 <==> BannedNow(e, r.ip, at.lifted)
    ensures Unique(Lift(e.bans, r.ip, at.lifted).0) && |Lift(e.bans, r.ip, at.lifted).0| == |e.bans|
    ensures Sentences(Lift(e.bans, r.ip, at.lifted).0) ==
      if BannedNow(e, r.ip, at.lifted) then Sentences(e.bans) else Sentences(e.bans) - {r.ip}
  {
    hide Sentences, Lift, Unique;
    LiftRefinesMap(e.bans, r.ip, at.lifted);
  }

  /** A request passes if and only if neither shield nor ban stops it, the rate limiter
      accepts it, and no detector finds anything in its path or body. */
  lemma PassesIff(e: Engine, r: Request, at: Clock, P: Parts)
    requires e.Sized() && Unique(e.bans)
    ensures CheckRequest(e, r, at, P).1 <==>
      && !KeptOutByShield(e, r) && !BannedNow(e, r.ip, at.lifted) && WithinLimit(e, r, at, P)
      && !HasSqli(r, P) && !HasXss(r, P) && !HasTraversal(r, P) && !HasCommand(r, P)
  {
    hide RateCheck, Sentences, Lift, Unique, Ban, Expiry, Stored;
    Stops(e, r, at, P);
  }

  /** A request that passes leaves nothing behind but its count and, if it had one, the end
      of its sentence. */
  lemma PassLeaves(e: Engine, r: Request, at: Clock, P: Parts)
    requires e.Sized() && Unique(e.bans) && CheckRequest(e, r, at, P).1
    ensures
      var e' := CheckRequest(e, r, at, P).0;
      && e'.log == e.log && Sentences(e'.bans) == Sentences(e.bans) - {r.ip}
      && e'.rate == RateCheck(e.rate, r.ip, P.hash(r.ip), at.counted, e.config.rate).0
  {
    hide RateCheck, Sentences, Lift, Unique, Ban, Expiry, Stored;
    Stops(e, r, at, P);
  }

  /** The shield logs whom it keeps out and changes nothing else; a banned address is
      refused without a trace. */
  lemma StoppedLeaves(e: Engine, r: Request, at: Clock, P: Parts)
    requires e.Sized() && Unique(e.bans)
    ensures
      var (e', ok) := CheckRequest(e, r, at, P);
      && (KeptOutByShield(e, r) ==>
            !ok && e' == e.(log := e.log + [Record(r.ip, Ddos, "blocked by shield mode", at.logged)]))
      && (!KeptOutByShield(e, r) && BannedNow(e, r.ip, at.lifted) ==>
            !ok && e'.log == e.log && e'.rate == e.rate && Sentences(e'.bans) == Sentences(e.bans))
  {
    hide RateCheck, Sentences, Lift, Unique, Ban, Expiry, Inspect;
    Stops(e, r, at, P);
  }

  // ----- what follows -----

  /** A line of the log; address and text are cut at the length of their fields. */
  function Record(ip: string, kind: Threat, text: string, at: int): ThreatRecord {
    ThreatRecord(if |ip| <= 45 then ip else ip[..45], kind, if |text| <= 1023 then text else text[..1023], at)
  }

  /** The address, and no other, is banned for `hours` from now, for good if that is zero,
      unless all 4096 entries are used; the log says why. */
  ghost predicate Punished(e: Engine, e': Engine, r: Request, at: Clock, kind: Threat, hours: nat, text: string) {
    && e'.log == e.log + [Record(r.ip, kind, text, at.logged)]
    && Unique(e'.bans)
    && (forall b :: b in e'.bans && b.active && b.ip == r.ip ==> b.reason == kind)
    && Sentences(e'.bans) == (
         if |e.bans| < 4096 then
           Sentences(e.bans)[r.ip := Sentence(at.banned + hours * 3600 % 0x1_0000_0000, hours == 0)]
         else Sentences(e.bans) - {r.ip})
  }

  /** One that neither shield nor ban stops. */
  ghost predicate LookedAt(e: Engine, r: Request, at: Clock) {
    e.Sized() && Unique(e.bans) && |r.ip| <= 45 && !KeptOutByShield(e, r) && !BannedNow(e, r.ip, at.lifted)
  }

  lemma BanReason(bans: seq<BanEntry>, ip: string, hours: nat, kind: Threat, now: int)
    requires Unique(bans) && |ip| <= 45
    ensures forall b :: b in Ban(bans, ip, hours, kind, now) && b.active && b.ip == ip ==> b.reason == kind
  {
    hide Expiry;
    var list := Ban(bans, ip, hours, kind, now);
    forall i | 0 <= i < |list| && list[i].active && list[i].ip == ip ensures list[i].reason == kind {
      if i < |bans| && bans[i].active && bans[i].ip == ip {
        OnlyEntry(bans, ip, i);
      }
    }
  }

  lemma PunishPunishes(e: Engine, r: Request, at: Clock, P: Parts, f: Finding)
    requires LookedAt(e, r, at)
    requires
      var rate := RateCheck(e.rate, r.ip, P.hash(r.ip), at.counted, e.config.rate);
      Judge(e.config, rate.1, r, P) == Some(f)
    ensures
      var (e', ok) := CheckRequest(e, r, at, P);
      !ok && Punished(e, e', r, at, f.kind, f.hours, f.detail)
  {
    hide RateCheck, Sentences, Lift, Unique, Ban, Judge;
    Stops(e, r, at, P);
    var bans := Lift(e.bans, r.ip, at.lifted).0;
    BanRefinesMap(bans, r.ip, f.hours, f.kind, at.banned);
    assert CheckRequest(e, r, at, P).0.bans == Ban(bans, r.ip, f.hours, f.kind, at.banned);
    BanReason(bans, r.ip, f.hours, f.kind, at.banned);
    var s, sentence := Sentences(e.bans), Sentence(at.banned + f.hours * 3600 % 0x1_0000_0000, f.hours == 0);
    assert (s - {r.ip})[r.ip := sentence] == s[r.ip := sentence];
  }

  /** Too many calls: the hours of the configuration, whatever else is found. */
  lemma ExcessBans(e: Engine, r: Request, at: Clock, P: Parts)
    requires LookedAt(e, r, at) && !WithinLimit(e, r, at, P)
    ensures
      var e' := CheckRequest(e, r, at, P).0;
      Punished(e, e', r, at, BruteForce, e.config.bruteForceBanHours, "rate limit exceeded")
  {
    hide RateCheck, CheckRequest, Punished, LookedAt, Inspect;
    PunishPunishes(e, r, at, P, Finding(BruteForce, "rate limit exceeded", e.config.bruteForceBanHours));
  }

  /** What is logged of a request: the raw one, if there is one. */
  function Text(r: Request, other: string): string {
    if r.raw.Some? then r.raw.value else other
  }

  /** Otherwise the first finding counts, in this order: SQL injection with the hours of the
      configuration, scripts with 48, path traversal with 24, commands with 72. */
  lemma FindingsBan(e: Engine, r: Request, at: Clock, P: Parts)
    requires LookedAt(e, r, at) && WithinLimit(e, r, at, P)
    ensures
      var e' := CheckRequest(e, r, at, P).0;
      && (HasSqli(r, P) ==> Punished(e, e', r, at, SqlInjection, e.config.sqliBanHours, Text(r, r.path)))
      && (!HasSqli(r, P) && HasXss(r, P) ==> Punished(e, e', r, at, Xss, 48, Text(r, r.path)))
      && (!HasSqli(r, P) && !HasXss(r, P) && HasTraversal(r, P) ==>
            Punished(e, e', r, at, PathTraversal, 24, r.path))
      && (!HasSqli(r, P) && !HasXss(r, P) && !HasTraversal(r, P) && HasCommand(r, P) ==>
            Punished(e, e', r, at, CommandInjection, 72, Text(r, r.body.value)))
  {
    hide RateCheck, CheckRequest, Punished, LookedAt;
    assert e.Sized() by { LookedAtSized(e, r, at); }
    if HasSqli(r, P) {
      PunishPunishes(e, r, at, P, Finding(SqlInjection, Text(r, r.path), e.config.sqliBanHours));
    } else if HasXss(r, P) {
      PunishPunishes(e, r, at, P, Finding(Xss, Text(r, r.path), 48));
    } else if HasTraversal(r, P) {
      PunishPunishes(e, r, at, P, Finding(PathTraversal, r.path, 24));
    } else if HasCommand(r, P) {
      PunishPunishes(e, r, at, P, Finding(CommandInjection, Text(r, r.body.value), 72));
    }
  }

  lemma LookedAtSized(e: Engine, r: Request, at: Clock)
    requires LookedAt(e, r, at)
    ensures e.Sized()
  {
  }
}
