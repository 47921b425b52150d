/** The ban list (src/runtime/security.c): a list that only grows, searched from the
    front. While it is not full it is a map from addresses to sentences. */
module BanList {
  import opened Wrappers
  import opened RateLimit

  const MAX_BLACKLIST: nat := 4096

  datatype Threat = BruteForce | SqlInjection | Xss | Ddos | PathTraversal | CommandInjection

  datatype BanEntry = BanEntry(ip: string, expires: int, permanent: bool, active: bool, reason: Threat)

  datatype Sentence = Sentence(expires: int, permanent: bool)

  /** `hours * 3600` in 32 bits, added to the clock. */
  function Expiry(now: int, hours: nat): int {
    now + hours * 3600 % TWO_32
  }

  /** The first active entry of `ip` at or behind `from`. */
  function FindActive(list: seq<BanEntry>, ip: string, from: nat): (r: Option<nat>)
    requires from <= |list|
    ensures r.Some? ==> from <= r.value < |list| && list[r.value].active && list[r.value].ip == ip
    ensures forall j :: from <= j < (if r.Some? then r.value else |list|) ==> !(list[j].active && list[j].ip == ip)
    decreases |list| - from
  {
    if from == |list| then None
    else if list[from].active && list[from].ip == ip then Some(from)
    else FindActive(list, ip, from + 1)
  }

  predicate InForce(entry: BanEntry, now: int) {
    entry.permanent || now < entry.expires
  }

  /** sky_security_is_blacklisted: an expired entry is switched off when it is met. */
  function Lift(list: seq<BanEntry>, ip: string, now: int): (seq<BanEntry>, bool) {
    match FindActive(list, ip, 0)
    case None => (list, false)
    case Some(i) => if InForce(list[i], now) then (list, true) else (list[i := list[i].(active := false)], false)
  }

  /** sky_security_blacklist. */
  function Ban(list: seq<BanEntry>, ip: string, hours: nat, reason: Threat, now: int): seq<BanEntry> {
    match FindActive(list, ip, 0)
    case Some(i) =>
      list[i := list[i].(expires := Expiry(now, hours), reason := reason, permanent := list[i].permanent || hours == 0)]
    case None =>
      if |list| < MAX_BLACKLIST then list + [BanEntry(Stored(ip), Expiry(now, hours), hours == 0, true, reason)]
      else list
  }

  // ----- the map -----

  /** At most one active entry for an address. */
  ghost predicate Unique(list: seq<BanEntry>) {
    forall i, j :: 0 <= i < j < |list| && list[i].active && list[j].active ==> list[i].ip != list[j].ip
  }

  /** The sentence of `ip`, if it is banned. */
  function View(list: seq<BanEntry>, ip: string): Option<Sentence> {
    match FindActive(list, ip, 0)
    case None => None
    case Some(i) => Some(Sentence(list[i].expires, list[i].permanent))
  }

  /** The sentence of each banned address. */
  ghost function Sentences(list: seq<BanEntry>): map<string, Sentence> {
    map ip | ip in (set i | 0 <= i < |list| :: list[i].ip) && View(list, ip).Some? :: View(list, ip).value
  }

  lemma InSentences(list: seq<BanEntry>, ip: string)
    ensures ip in Sentences(list) <==> View(list, ip).Some?
    ensures ip in Sentences(list) ==> Sentences(list)[ip] == View(list, ip).value
  {
  }

  lemma OnlyEntry(list: seq<BanEntry>, ip: string, i: nat)
    requires Unique(list) && i < |list| && list[i].active && list[i].ip == ip
    ensures FindActive(list, ip, 0) == Some(i)
  {
  }

  /** Entries of other addresses are found as before. */
  lemma SameElsewhere(list: seq<BanEntry>, list': seq<BanEntry>, ip: string, other: string)
    requires |list| <= |list'| && ip != other
    requires forall i :: 0 <= i < |list| ==> list'[i] == list[i] || (list[i].ip == ip && list'[i].ip == ip)
    requires forall i :: |list| <= i < |list'| ==> list'[i].ip == ip
    ensures View(list', other) == View(list, other)
  {
  }

  lemma LiftView(list: seq<BanEntry>, ip: string, now: int, other: string)
    requires Unique(list)
    ensures
      var (list', banned) := Lift(list, ip, now);
      View(list', other) == if other == ip && !banned then None else View(list, other)
  {
    if other != ip {
      SameElsewhere(list, Lift(list, ip, now).0, ip, other);
    }
  }

  lemma BanView(list: seq<BanEntry>, ip: string, hours: nat, reason: Threat, now: int, other: string)
    requires Unique(list) && |ip| <= IP_MAX
    ensures
      var was := View(list, other);
      View(Ban(list, ip, hours, reason, now), other) ==
        if other != ip then was
        else if was.Some? then Some(Sentence(Expiry(now, hours), was.value.permanent || hours == 0))
        else if |list| < MAX_BLACKLIST then Some(Sentence(Expiry(now, hours), hours == 0))
        else None
  {
    hide Expiry;
    var list' := Ban(list, ip, hours, reason, now);
    if other != ip {
      SameElsewhere(list, list', ip, other);
    } else if View(list, ip).Some? {
      OnlyEntry(list', ip, FindActive(list, ip, 0).value);
    } else if |list| < MAX_BLACKLIST {
      OnlyEntry(list', ip, |list|);
    }
  }

  /** Checking an address against the list is looking it up in the map and removing an
      expired sentence. */
  lemma LiftRefinesMap(list: seq<BanEntry>, ip: string, now: int)
    requires Unique(list)
    ensures
      var (list', banned) := Lift(list, ip, now);
      var s := Sentences(list);
      && Unique(list') && |list'| == |list|
      && (banned <==> ip in s && (s[ip].permanent || now < s[ip].expires))
      && Sentences(list') == if banned then s else s - {ip}
  {
    hide Sentences, View;
    var (list', banned) := Lift(list, ip, now);
    forall other
      ensures other in Sentences(list') <==> other in Sentences(list) && (banned || other != ip)
      ensures other in Sentences(list') ==> Sentences(list')[other] == Sentences(list)[other]
    {
      LiftView(list, ip, now, other);
      InSentences(list, other);
      InSentences(list', other);
    }
    LiftVerdict(list, ip, now);
    assert Sentences(list').Keys == if banned then Sentences(list).Keys else Sentences(list).Keys - {ip};
  }

  lemma LiftVerdict(list: seq<BanEntry>, ip: string, now: int)
    ensures
      var s := Sentences(list);
      Lift(list, ip, now).1 <==> ip in s && (s[ip].permanent || now < s[ip].expires)
  {
    InSentences(list, ip);
  }

  /** Banning is an update of the map, unless the address is new and the list is full. A
      permanent sentence stays permanent. */
  lemma BanRefinesMap(list: seq<BanEntry>, ip: string, hours: nat, reason: Threat, now: int)
    requires Unique(list) && |ip| <= IP_MAX
    ensures
      var list' := Ban(list, ip, hours, reason, now);
      var s := Sentences(list);
      && Unique(list')
      && Sentences(list') ==
        if ip in s then s[ip := Sentence(Expiry(now, hours), s[ip].permanent || hours == 0)]
        else if |list| < MAX_BLACKLIST then s[ip := Sentence(Expiry(now, hours), hours == 0)]
        else s
  {
    hide Sentences, View, Expiry;
    var list' := Ban(list, ip, hours, reason, now);
    var s, s' := Sentences(list), Sentences(list');
    forall other
      ensures other != ip ==> (other in s' <==> other in s) && (other in s ==> s'[other] == s[other])
    {
      BanView(list, ip, hours, reason, now, other);
      InSentences(list, other);
      InSentences(list', other);
    }
    BanView(list, ip, hours, reason, now, ip);
    InSentences(list, ip);
    InSentences(list', ip);
  }

  /** An address that its field cannot hold is not found again: it is banned anew each
      time, under its first 45 characters. */
  lemma LongAddressBan(list: seq<BanEntry>, ip: string, hours: nat, reason: Threat, now: int)
    requires Unique(list) && |ip| > IP_MAX && |list| < MAX_BLACKLIST
    requires forall i :: 0 <= i < |list| ==> |list[i].ip| <= IP_MAX
    ensures !Lift(Ban(list, ip, hours, reason, now), ip, now).1
    ensures Unique(Ban(list, ip, hours, reason, now)) <==> View(list, Stored(ip)).None?
  {
    var list' := Ban(list, ip, hours, reason, now);
    if View(list, Stored(ip)).Some? {
      var i := FindActive(list, Stored(ip), 0).value;
      assert list'[i].ip == list'[|list|].ip;
    }
  }
}
