/** The security engine with its fixed arrays (src/runtime/security.c). Each method is
    proved to do to the state what Security, RateLimit and BanList say. */
module SecurityEngine {
  import opened Wrappers
  import opened RateLimit
  import opened BanList
  import opened Security

  const MAX_THREAT_LOG: nat := 2048

  class SkySecurityEngine {
    var config: Config
    const rateTable: array<RateEntry>
    const blacklist: array<BanEntry>
    var blacklistCount: nat
    const whitelist: array<string>
    var whitelistCount: nat
    const threatLog: array<ThreatRecord>
    var threatLogHead: nat
    var threatLogCount: nat
    const parts: Parts
    /** Every threat ever logged; the array holds the last ones. */
    ghost var logged: seq<ThreatRecord>

    ghost predicate Valid()
      reads this, threatLog
    {
      && rateTable.Length == RATE_ENTRIES && blacklist.Length == MAX_BLACKLIST
      && whitelist.Length == MAX_WHITELIST && threatLog.Length == MAX_THREAT_LOG
      && blacklistCount <= MAX_BLACKLIST && whitelistCount <= MAX_WHITELIST
      && LogValid()
    }

    /** The ring holds the newest records, also after the 32-bit head has wrapped. */
    ghost predicate LogValid()
      requires threatLog.Length == MAX_THREAT_LOG
      reads this, threatLog
    {
      && threatLogHead == |logged| % TWO_32
      && threatLogCount == (if |logged| < MAX_THREAT_LOG then |logged| else MAX_THREAT_LOG)
      && forall k :: |logged| - threatLogCount <= k < |logged| ==> threatLog[k % MAX_THREAT_LOG] == logged[k]
    }

    ghost function State(): (e: Engine)
      requires Valid()
      reads this, rateTable, blacklist, whitelist, threatLog
      ensures e.Sized()
    {
      Engine(config, rateTable[..], blacklist[..blacklistCount], whitelist[..whitelistCount], logged)
    }

    /** sky_security_init */
    constructor (parts: Parts)
      ensures Valid() && this.parts == parts
      ensures State() == Engine(Config(RateConfig(100, 60), 24, 72, false), Limiter.Empty(), [], [], [])
      ensures fresh(rateTable) && fresh(blacklist) && fresh(whitelist) && fresh(threatLog)
    {
      this.parts := parts;
      config := Config(RateConfig(100, 60), 24, 72, false);
      rateTable := new RateEntry[RATE_ENTRIES](i => UNUSED);
      blacklist := new BanEntry[MAX_BLACKLIST](i => BanEntry("", 0, false, false, BruteForce));
      whitelist := new string[MAX_WHITELIST](i => "");
      threatLog := new ThreatRecord[MAX_THREAT_LOG](i => ThreatRecord("", BruteForce, "", 0));
      blacklistCount, whitelistCount, threatLogHead, threatLogCount, logged := 0, 0, 0, 0, [];
      new;
      assert rateTable[..] == Limiter.Empty();
    }

    method SetRateLimit(max: nat, window: nat)
      requires Valid() && max < TWO_32 && window < TWO_32
      modifies this`config
      ensures Valid() && State() == old(State()).(config := old(config).(rate := RateConfig(max, window)))
    {
      config := config.(rate := RateConfig(max, window));
    }

    method SetShield(on: bool)
      requires Valid()
      modifies this`config
      ensures Valid() && State() == old(State()).(config := old(config).(shield := on))
    {
      config := config.(shield := on);
    }

    /** check_rate_limit */
    method CheckRateLimit(ip: string, now: int) returns (ok: bool)
      requires Valid()
      modifies rateTable
      ensures Valid()
      ensures (rateTable[..], ok) == RateCheck(old(rateTable[..]), ip, parts.hash(ip), now, config.rate)
    {
      hide Touch;
      var h := parts.hash(ip);
      ghost var start := rateTable[..];
      for probe := 0 to PROBES
        invariant rateTable[..] == start
        invariant Search(start, ip, h, 0) == Search(start, ip, h, probe)
      {
        var i := ProbeAt(h, probe);
        var entry := rateTable[i];
        if !entry.active || entry.ip == ip {
          assert Search(start, ip, h, 0) == Some(i);
          ok := TouchSlot(i, ip, now);
          return;
        }
      }
      return true;
    }

    /** The two branches on a slot that was found. */
    method TouchSlot(i: nat, ip: string, now: int) returns (ok: bool)
      requires Valid() && i < rateTable.Length
      modifies rateTable
      ensures Valid()
      ensures rateTable[..] == old(rateTable[..])[i := Touch(old(rateTable[i]), ip, now, config.rate).0]
      ensures ok == Touch(old(rateTable[i]), ip, now, config.rate).1
    {
      var entry := rateTable[i];
      if !entry.active {
        rateTable[i] := RateEntry(Stored(ip), 1, now, true);
        return true;
      }
      if Elapsed(entry.windowStart, now) >= config.rate.window {
        rateTable[i] := entry.(count := 1, windowStart := now);
        return true;
      }
      rateTable[i] := entry.(count := (entry.count + 1) % TWO_32);
      ok := rateTable[i].count <= config.rate.max;
    }

    /** sky_security_is_blacklisted */
    method IsBlacklisted(ip: string, now: int) returns (banned: bool)
      requires Valid()
      modifies blacklist
      ensures Valid()
      ensures (blacklist[..blacklistCount], banned) == Lift(old(blacklist[..blacklistCount]), ip, now)
    {
      ghost var list := blacklist[..blacklistCount];
      for i := 0 to blacklistCount
        invariant blacklist[..blacklistCount] == list
        invariant FindActive(list, ip, 0) == FindActive(list, ip, i)
      {
        var entry := blacklist[i];
        assert entry == list[i];
        if entry.active && entry.ip == ip {
          if !entry.permanent && now >= entry.expires {
            blacklist[i] := entry.(active := false);
            assert blacklist[..blacklistCount] == list[i := entry.(active := false)];
            return false;
          }
          return true;
        }
      }
      return false;
    }

    /** sky_security_blacklist */
    method Blacklist(ip: string, hours: nat, reason: Threat, now: int)
      requires Valid()
      modifies blacklist, this`blacklistCount
      ensures Valid()
      ensures blacklist[..blacklistCount] == Ban(old(blacklist[..blacklistCount]), ip, hours, reason, now)
    {
      hide Expiry;
      ghost var list := blacklist[..blacklistCount];
      for i := 0 to blacklistCount
        invariant blacklistCount == old(blacklistCount) && blacklist[..blacklistCount] == list
        invariant FindActive(list, ip, 0) == FindActive(list, ip, i)
      {
        var entry := blacklist[i];
        assert entry == list[i];
        if entry.active && entry.ip == ip {
          entry := entry.(expires := Expiry(now, hours), reason := reason);
          blacklist[i] := if hours == 0 then entry.(permanent := true) else entry;
          assert blacklist[..blacklistCount] == list[i := blacklist[i]];
          return;
        }
      }
      if blacklistCount < MAX_BLACKLIST {
        blacklist[blacklistCount] := BanEntry(Stored(ip), Expiry(now, hours), hours == 0, true, reason);
        blacklistCount := blacklistCount + 1;
      }
    }

    /** sky_security_whitelist */
    method Whitelist(ip: string)
      requires Valid()
      modifies whitelist, this`whitelistCount
      ensures Valid()
      ensures whitelist[..whitelistCount] == Allow(old(whitelist[..whitelistCount]), ip)
    {
      if whitelistCount < MAX_WHITELIST {
        whitelist[whitelistCount] := Stored(ip);
        whitelistCount := whitelistCount + 1;
      }
    }

    method IsWhitelisted(ip: string) returns (found: bool)
      requires Valid()
      ensures found <==> ip in whitelist[..whitelistCount]
    {
      for i := 0 to whitelistCount
        invariant ip !in whitelist[..i]
      {
        if whitelist[i] == ip {
          return true;
        }
      }
      return false;
    }

    /** sky_security_log_threat */
    method LogThreat(ip: string, kind: Threat, detail: string, at: int)
      requires Valid()
      modifies threatLog, this`threatLogHead, this`threatLogCount, this`logged
      ensures Valid()
      ensures logged == old(logged) + [ThreatRecord(Stored(ip), kind, Detail(detail), at)]
    {
      hide Stored, Detail;
      var i := threatLogHead % MAX_THREAT_LOG;
      RingIndex(|logged|);
      threatLog[i] := ThreatRecord(Stored(ip), kind, Detail(detail), at);
      threatLogHead := (threatLogHead + 1) % TWO_32;
      if threatLogCount < MAX_THREAT_LOG {
        threatLogCount := threatLogCount + 1;
      }
      logged := logged + [threatLog[i]];
      HeadAdvances(|logged| - 1);
      assert LogValid() by {
        forall k | |logged| - threatLogCount <= k < |logged| ensures threatLog[k % MAX_THREAT_LOG] == logged[k] {
          if k < |logged| - 1 {
            Apart(k, |logged| - 1);
          }
        }
      }
    }

    static lemma RingIndex(n: nat)
      ensures n % TWO_32 % MAX_THREAT_LOG == n % MAX_THREAT_LOG
    {
      var q := n / TWO_32;
      assert n == q * 0x20_0000 * MAX_THREAT_LOG + n % TWO_32;
      assert (q * 0x20_0000 * MAX_THREAT_LOG + n % TWO_32) % MAX_THREAT_LOG == n % TWO_32 % MAX_THREAT_LOG;
    }

    static lemma HeadAdvances(n: nat)
      ensures (n % TWO_32 + 1) % TWO_32 == (n + 1) % TWO_32
    {
    }

    static lemma Apart(k: nat, n: nat)
      requires n - MAX_THREAT_LOG < k < n
      ensures k % MAX_THREAT_LOG != n % MAX_THREAT_LOG
    {
    }

    /** sky_security_check_request */
    method Check(r: Request, at: Clock) returns (ok: bool)
      requires Valid()
      modifies this, rateTable, blacklist, threatLog
      ensures Valid() && (State(), ok) == CheckRequest(old(State()), r, at, parts)
    {
      hide RateCheck, Lift, Ban, LogValid, Detail, Stored, Inspect;
      if config.shield {
        var allowed := IsWhitelisted(r.ip);
        if !allowed {
          LogThreat(r.ip, Ddos, "blocked by shield mode", at.logged);
          return false;
        }
      }
      var banned := IsBlacklisted(r.ip, at.lifted);
      if banned {
        return false;
      }
      var rateOk := CheckRateLimit(r.ip, at.counted);
      if !rateOk {
        Refuse(r.ip, Finding(BruteForce, "rate limit exceeded", config.bruteForceBanHours), at);
        return false;
      }
      var found := Detect(r);
      if found.Some? {
        Refuse(r.ip, found.value, at);
        return false;
      }
      return true;
    }

    /** The detectors in the order of the source. */
    method Detect(r: Request) returns (found: Option<Finding>)
      ensures found == Inspect(config, r, parts)
    {
      if parts.sqli(r.path) || (r.body.Some? && parts.sqli(r.body.value)) {
        return Some(Finding(SqlInjection, if r.raw.Some? then r.raw.value else r.path, config.sqliBanHours));
      }
      if parts.xss(r.path) || (r.body.Some? && parts.xss(r.body.value)) {
        return Some(Finding(Xss, if r.raw.Some? then r.raw.value else r.path, 48));
      }
      if parts.traversal(r.path) {
        return Some(Finding(PathTraversal, r.path, 24));
      }
      if r.body.Some? && parts.command(r.body.value) {
        return Some(Finding(CommandInjection, if r.raw.Some? then r.raw.value else r.body.value, 72));
      }
      return None;
    }

    /** Log, then ban. */
    method Refuse(ip: string, f: Finding, at: Clock)
      requires Valid()
      modifies this`threatLogHead, this`threatLogCount, this`logged, this`blacklistCount, blacklist, threatLog
      ensures Valid() && State() == Punish(old(State()), ip, f, at)
    {
      hide Ban, LogValid, Detail, Stored;
      LogThreat(ip, f.kind, f.detail, at.logged);
      Blacklist(ip, f.hours, f.kind, at.banned);
    }
  }
}
