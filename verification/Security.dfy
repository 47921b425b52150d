/** The request check of the security engine (src/runtime/security.c) and what runs of
    requests keep. */
module Security {
  import opened Wrappers
  import opened RateLimit
  import opened BanList

  datatype Config = Config(rate: RateConfig, bruteForceBanHours: nat, sqliBanHours: nat, shield: bool)

  const MAX_WHITELIST: nat := 256

  /** A line of the threat log. */
  datatype ThreatRecord = ThreatRecord(ip: string, kind: Threat, detail: string, at: int)

  datatype Request = Request(ip: string, path: string, body: Option<string>, raw: Option<string>)

  /** The readings of the clock that one request causes. */
  datatype Clock = Clock(lifted: int, counted: int, logged: int, banned: int)

  /** The string searches and the hash, which this model leaves open. */
  datatype Parts = Parts(sqli: string -> bool, xss: string -> bool, traversal: string -> bool, command: string -> bool,
    hash: string -> nat)

  /** The engine's state; `log` is the whole history of threats. */
  datatype Engine = Engine(config: Config, rate: seq<RateEntry>, bans: seq<BanEntry>, whitelist: seq<string>,
    log: seq<ThreatRecord>) {
    predicate Sized() {
      |rate| == RATE_ENTRIES && |bans| <= MAX_BLACKLIST && |whitelist| <= MAX_WHITELIST
    }
  }

  function Detail(s: string): string {
    if |s| <= 1023 then s else s[..1023]
  }

  function Log(e: Engine, ip: string, kind: Threat, detail: string, at: int): Engine {
    e.(log := e.log + [ThreatRecord(Stored(ip), kind, Detail(detail), at)])
  }

  /** sky_security_whitelist */
  function Allow(whitelist: seq<string>, ip: string): seq<string> {
    if |whitelist| < MAX_WHITELIST then whitelist + [Stored(ip)] else whitelist
  }

  /** What is found in a request: the kind of attack, the text that is logged, the ban. */
  datatype Finding = Finding(kind: Threat, detail: string, hours: nat)

  function Inspect(config: Config, r: Request, P: Parts): Option<Finding> {
    var text := if r.raw.Some? then r.raw.value else r.path;
    if P.sqli(r.path) || (r.body.Some? && P.sqli(r.body.value)) then
      Some(Finding(SqlInjection, text, config.sqliBanHours))
    else if P.xss(r.path) || (r.body.Some? && P.xss(r.body.value)) then Some(Finding(Xss, text, 48))
    else if P.traversal(r.path) then Some(Finding(PathTraversal, r.path, 24))
    else if r.body.Some? && P.command(r.body.value) then
      Some(Finding(CommandInjection, if r.raw.Some? then r.raw.value else r.body.value, 72))
    else None
  }

  function Punish(e: Engine, ip: string, f: Finding, at: Clock): Engine {
    var e1 := Log(e, ip, f.kind, f.detail, at.logged);
    e1.(bans := Ban(e1.bans, ip, f.hours, f.kind, at.banned))
  }

  /** sky_security_check_request: the new state and whether the request passes. */
  function CheckRequest(e: Engine, r: Request, at: Clock, P: Parts): (res: (Engine, bool))
    requires e.Sized()
    ensures res.0.Sized() && res.0.config == e.config && res.0.whitelist == e.whitelist
  {
    if Shielded(e, r.ip) then (Log(e, r.ip, Ddos, "blocked by shield mode", at.logged), false)
    else
      var (bans, banned) := Lift(e.bans, r.ip, at.lifted);
      var e1 := e.(bans := bans);
      if banned then (e1, false)
      else
        var (rate, ok) := RateCheck(e.rate, r.ip, P.hash(r.ip), at.counted, e.config.rate);
        var e2 := e1.(rate := rate);
        var found := Judge(e.config, ok, r, P);
        if found.None? then (e2, true) else (Punish(e2, r.ip, found.value, at), false)
  }

  predicate Shielded(e: Engine, ip: string) {
    e.config.shield && ip !in e.whitelist
  }

  /** Why a request is refused that neither the shield nor a ban stops. */
  function Judge(config: Config, rateOk: bool, r: Request, P: Parts): Option<Finding> {
    if rateOk then Inspect(config, r, P)
    else Some(Finding(BruteForce, "rate limit exceeded", config.bruteForceBanHours))
  }

  // ----- runs -----

  datatype Event = Event(request: Request, at: Clock)

  function Run(e: Engine, events: seq<Event>, P: Parts): (e': Engine)
    requires e.Sized()
    ensures e'.Sized() && e'.config == e.config && e'.whitelist == e.whitelist
    decreases |events|
  {
    if events == [] then e else Run(CheckRequest(e, events[0].request, events[0].at, P).0, events[1..], P)
  }

  /** Whether each request of the run passes. */
  function Verdicts(e: Engine, events: seq<Event>, P: Parts): (vs: seq<bool>)
    requires e.Sized()
    ensures |vs| == |events|
    decreases |events|
  {
    if events == [] then []
    else
      var (e1, ok) := CheckRequest(e, events[0].request, events[0].at, P);
      [ok] + Verdicts(e1, events[1..], P)
  }

  /** `ip` is banned by entry `i`. */
  predicate BannedBy(bans: seq<BanEntry>, ip: string, i: nat) {
    FindActive(bans, ip, 0) == Some(i)
  }

  /** The request comes while the sentence lasts. */
  predicate Early(entry: BanEntry, ev: Event, ip: string) {
    ev.request.ip == ip ==> InForce(entry, ev.at.lifted)
  }

  lemma {:induction false} FoundAfter(bans: seq<BanEntry>, bans': seq<BanEntry>, ip: string, from: nat)
    requires from <= |bans| <= |bans'| && FindActive(bans, ip, from).Some?
    requires forall j :: from <= j < |bans| ==> bans'[j] == bans[j] || (bans[j].ip != ip && bans'[j].ip != ip)
    ensures FindActive(bans', ip, from) == FindActive(bans, ip, from)
    decreases |bans| - from
  {
    if !(bans[from].active && bans[from].ip == ip) {
      FoundAfter(bans, bans', ip, from + 1);
    }
  }

  /** A check of any address leaves the entry of a banned one alone while its sentence
      lasts, and refuses the banned one. */
  lemma StillBanned(e: Engine, ev: Event, P: Parts, ip: string, i: nat)
    requires e.Sized() && BannedBy(e.bans, ip, i) && Early(e.bans[i], ev, ip)
    ensures
      var (e', ok) := CheckRequest(e, ev.request, ev.at, P);
      && BannedBy(e'.bans, ip, i) && e'.bans[i] == e.bans[i]
      && (ev.request.ip == ip ==> !ok)
  {
    hide RateCheck, Inspect, Expiry, FindActive;
    if ev.request.ip != ip {
      OthersStay(e, ev, P, ip);
      FoundAfter(e.bans, CheckRequest(e, ev.request, ev.at, P).0.bans, ip, 0);
    }
  }

  /** A request changes no entry of another address. */
  lemma OthersStay(e: Engine, ev: Event, P: Parts, ip: string)
    requires e.Sized() && ev.request.ip != ip
    ensures
      var bans := CheckRequest(e, ev.request, ev.at, P).0.bans;
      && |bans| >= |e.bans|
      && forall j :: 0 <= j < |e.bans| ==> bans[j] == e.bans[j] || (e.bans[j].ip != ip && bans[j].ip != ip)
  {
    hide RateCheck, Inspect, Expiry;
  }

  /** In every run of requests, a banned address is refused until its sentence ends, for
      ever if it is permanent, and no request changes the sentence before. */
  lemma {:induction false} KeptOut(e: Engine, events: seq<Event>, P: Parts, ip: string, i: nat)
    requires e.Sized() && BannedBy(e.bans, ip, i)
    requires forall k :: 0 <= k < |events| ==> Early(e.bans[i], events[k], ip)
    ensures forall k :: 0 <= k < |events| && events[k].request.ip == ip ==> !Verdicts(e, events, P)[k]
    ensures BannedBy(Run(e, events, P).bans, ip, i) && Run(e, events, P).bans[i] == e.bans[i]
    decreases |events|
  {
    if events != [] {
      hide CheckRequest, InForce;
      StillBanned(e, events[0], P, ip, i);
      var e1, rest := CheckRequest(e, events[0].request, events[0].at, P).0, events[1..];
      KeptOut(e1, rest, P, ip, i);
      forall k | 0 <= k < |events| && events[k].request.ip == ip ensures !Verdicts(e, events, P)[k] {
        if k > 0 {
          assert rest[k - 1] == events[k];
          assert Verdicts(e, events, P)[k] == Verdicts(e1, rest, P)[k - 1];
        }
      }
    }
  }

  /** A refusal that is neither the shield's nor an old ban's. */
  predicate Convicts(e: Engine, ev: Event, P: Parts)
    requires e.Sized()
  {
    && !Shielded(e, ev.request.ip) && !Lift(e.bans, ev.request.ip, ev.at.lifted).1
    && !CheckRequest(e, ev.request, ev.at, P).1
  }

  function Conviction(e: Engine, ev: Event, P: Parts): Option<Finding>
    requires e.Sized()
  {
    Judge(e.config, RateCheck(e.rate, ev.request.ip, P.hash(ev.request.ip), ev.at.counted, e.config.rate).1,
      ev.request, P)
  }

  /** A conviction bans the address for the hours that go with the attack, from the clock
      reading at that moment; no other address is affected. It needs a free entry. */
  lemma ConvictionBans(e: Engine, ev: Event, P: Parts)
    requires e.Sized() && Unique(e.bans) && |ev.request.ip| <= IP_MAX && Convicts(e, ev, P)
    ensures Conviction(e, ev, P).Some?
    ensures
      var e' := CheckRequest(e, ev.request, ev.at, P).0;
      var hours := Conviction(e, ev, P).value.hours;
      var kept := Sentences(e.bans) - {ev.request.ip};
      && Unique(e'.bans)
      && Sentences(e'.bans) ==
        if |e.bans| < MAX_BLACKLIST then
          kept[ev.request.ip := Sentence(Expiry(ev.at.banned, hours), hours == 0)] else kept
  {
    hide RateCheck, Inspect, Expiry, Sentences, Ban, Lift, Unique;
    var r, bans := ev.request, Lift(e.bans, ev.request.ip, ev.at.lifted).0;
    LiftRefinesMap(e.bans, r.ip, ev.at.lifted);
    var f := Conviction(e, ev, P).value;
    BanRefinesMap(bans, r.ip, f.hours, f.kind, ev.at.banned);
    assert CheckRequest(e, r, ev.at, P).0.bans == Ban(bans, r.ip, f.hours, f.kind, ev.at.banned);
  }

  /** The attacker is refused from the conviction to the end of the sentence, whatever
      requests come in between; a sentence of zero hours never ends. */
  lemma AttackerStaysOut(e: Engine, ev: Event, events: seq<Event>, P: Parts)
    requires e.Sized() && Unique(e.bans) && |ev.request.ip| <= IP_MAX && Convicts(e, ev, P) && |e.bans| < MAX_BLACKLIST
    requires
      var hours := Conviction(e, ev, P).value.hours;
      hours == 0 || forall k :: 0 <= k < |events| && events[k].request.ip == ev.request.ip ==>
        events[k].at.lifted < Expiry(ev.at.banned, hours)
    ensures
      var e' := CheckRequest(e, ev.request, ev.at, P).0;
      forall k :: 0 <= k < |events| && events[k].request.ip == ev.request.ip ==> !Verdicts(e', events, P)[k]
  {
    hide CheckRequest, Convicts, Conviction, Expiry, Sentences, Verdicts, Run;
    var ip, e' := ev.request.ip, CheckRequest(e, ev.request, ev.at, P).0;
    ConvictionBans(e, ev, P);
    InSentences(e'.bans, ip);
    KeptOut(e', events, P, ip, FindActive(e'.bans, ip, 0).value);
  }

  /** When the list is full no address is banned any more: entries are never given back. */
  lemma {:induction false} FullListBansNobody(e: Engine, events: seq<Event>, P: Parts, ip: string)
    requires e.Sized() && |e.bans| == MAX_BLACKLIST && View(e.bans, ip).None?
    ensures |Run(e, events, P).bans| == MAX_BLACKLIST && View(Run(e, events, P).bans, ip).None?
    decreases |events|
  {
    if events != [] {
      hide CheckRequest;
      FullStep(e, events[0], P, ip);
      FullListBansNobody(CheckRequest(e, events[0].request, events[0].at, P).0, events[1..], P, ip);
    }
  }

  lemma FullStep(e: Engine, ev: Event, P: Parts, ip: string)
    requires e.Sized() && |e.bans| == MAX_BLACKLIST && View(e.bans, ip).None?
    ensures
      var e' := CheckRequest(e, ev.request, ev.at, P).0;
      |e'.bans| == MAX_BLACKLIST && View(e'.bans, ip).None?
  {
    hide RateCheck, Inspect, Expiry;
  }

  /** Every run of requests from short addresses keeps one active entry per address. */
  lemma {:induction false} RunKeepsUnique(e: Engine, events: seq<Event>, P: Parts)
    requires e.Sized() && Unique(e.bans)
    requires forall k :: 0 <= k < |events| ==> |events[k].request.ip| <= IP_MAX
    ensures Unique(Run(e, events, P).bans)
    decreases |events|
  {
    if events != [] {
      hide CheckRequest, Unique;
      StepKeepsUnique(e, events[0], P);
      RunKeepsUnique(CheckRequest(e, events[0].request, events[0].at, P).0, events[1..], P);
    }
  }

  lemma StepKeepsUnique(e: Engine, ev: Event, P: Parts)
    requires e.Sized() && Unique(e.bans) && |ev.request.ip| <= IP_MAX
    ensures Unique(CheckRequest(e, ev.request, ev.at, P).0.bans)
  {
    hide RateCheck, Inspect, Expiry, Sentences, Ban, Lift, Unique;
    var r := ev.request;
    LiftRefinesMap(e.bans, r.ip, ev.at.lifted);
    if Convicts(e, ev, P) {
      ConvictionBans(e, ev, P);
    }
  }

  /** Under the shield an address that is not on the whitelist changes neither the ban
      list nor the rate table, and any other address is checked as without it. */
  lemma ShieldComesFirst(e: Engine, r: Request, at: Clock, P: Parts)
    requires e.Sized() && e.config.shield
    ensures
      var (e', ok) := CheckRequest(e, r, at, P);
      var plain := CheckRequest(e.(config := e.config.(shield := false)), r, at, P);
      if r.ip !in e.whitelist then !ok && e'.bans == e.bans && e'.rate == e.rate
      else ok == plain.1 && e'.(config := plain.0.config) == plain.0
  {
    hide RateCheck, Expiry, Ban, Lift;
  }
}
