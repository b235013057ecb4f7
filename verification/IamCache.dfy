/** The signed, expiring cache of identities. An entry is the text `mac:body`, where the MAC
    covers the token and the body; an entry whose MAC does not fit is evicted and never
    trusted. Identities are represented by their JSON text, the keyed MAC and the hash by
    ideal functions. */
module IamCache {
  import opened Store

  const PREFIX := "gateway:iam:"
  const TOKEN_TTL: int := 300
  const API_KEY_PREFIX := "omni_sk_"

  datatype Crypto = Crypto(mac: string -> string, hash: string -> string)

  /** Who is vouched for: a bearer token or an API key. */
  datatype Source = Bearer(token: string) | ApiKey(secret: string)

  /** The auth service identified `source` as `identity` at time `at`; for an API key it
      minted an access token that lives `expiresIn` seconds. */
  datatype Vouch = Vouch(source: Source, identity: string, at: real, expiresIn: int)

  /** How long an answer may be cached: five minutes, or for an API key no longer than the
      configured time and always until 30 seconds before the minted token runs out. */
  function Life(cacheTtl: int, v: Vouch): int {
    if v.source.Bearer? then TOKEN_TTL else if cacheTtl <= v.expiresIn - 30 then cacheTtl else v.expiresIn - 30
  }

  /** The setting: the ideal functions, the configured cache time of API keys, and the time
      within which an answer is written to the cache. */
  datatype Setting = Setting(c: Crypto, cacheTtl: int, slack: real)

  datatype Entry = Entry(raw: string, expires: real)

  /** No two texts share a MAC or a hash, MACs are free of colons and hashes of newlines. */
  ghost predicate Ideal(c: Crypto) {
    && (forall x, y :: c.mac(x) == c.mac(y) ==> x == y)
    && (forall x, y :: c.hash(x) == c.hash(y) ==> x == y)
    && (forall x :: ':' !in c.mac(x))
    && (forall x :: '\n' !in c.hash(x))
  }

  /** Tokens come from a header line and never look like the name of an API key's entry. */
  predicate Proper(s: Source) {
    s.Bearer? ==> '\n' !in s.token && !("apikey:" <= s.token)
  }

  function Subject(c: Crypto, s: Source): string {
    match s
    case Bearer(token) => token
    case ApiKey(secret) => "apikey:" + c.hash(secret)
  }

  function Sign(c: Crypto, subject: string, body: string): string {
    c.mac(subject + "\n" + body)
  }

  function Seal(c: Crypto, subject: string, body: string): string {
    Sign(c, subject, body) + ":" + body
  }

  /** Splits at the first `sep`. */
  function Partition(raw: string, sep: char): (r: (string, bool, string))
    ensures r.1 ==> raw == r.0 + [sep] + r.2 && sep !in r.0
    ensures !r.1 ==> sep !in raw
  {
    if raw == [] then ([], false, [])
    else if raw[0] == sep then ([], true, raw[1..])
    else
      var (a, found, b) := Partition(raw[1..], sep);
      ([raw[0]] + a, found, b)
  }

  /** The body of an entry whose MAC fits the subject. */
  function Unseal(c: Crypto, subject: string, raw: string): Option<string> {
    var (mac, found, body) := Partition(raw, ':');
    if found && mac == Sign(c, subject, body) then Some(body) else None
  }

  // ---------------------------------------------------------------- the entry format

  /** A text splits in only one way at its first separator. */
  lemma {:induction false} SplitUnique(a: string, b: string, x: string, y: string, sep: char)
    requires sep !in a && sep !in x && a + [sep] + b == x + [sep] + y
    ensures a == x && b == y
    decreases |a|
  {
    var s := a + [sep] + b;
    assert s[|a|] == sep && s[|x|] == sep;
    assert |a| == |x|;
    assert s[..|a|] == a && s[..|x|] == x;
    assert s[|a| + 1..] == b && s[|x| + 1..] == y;
  }

  /** Exactly the sealed texts of a subject unseal, each to the body that was sealed,
      whatever colons the body contains. */
  lemma SealExact(c: Crypto, subject: string, raw: string, body: string)
    requires Ideal(c)
    ensures Unseal(c, subject, raw) == Some(body) <==> raw == Seal(c, subject, body)
  {
    var (mac, found, rest) := Partition(raw, ':');
    if raw == Seal(c, subject, body) {
      assert raw[|Sign(c, subject, body)|] == ':';
      SplitUnique(mac, rest, Sign(c, subject, body), body, ':');
    }
  }

  /** An entry sealed for one subject and copied under another's name is refused. */
  lemma CopyRefused(c: Crypto, subject: string, other: string, body: string)
    requires Ideal(c) && '\n' !in subject && '\n' !in other && subject != other
    ensures Unseal(c, subject, Seal(c, other, body)).None?
  {
    var raw := Seal(c, other, body);
    if Unseal(c, subject, raw).Some? {
      var b := Unseal(c, subject, raw).value;
      SealExact(c, subject, raw, b);
      SplitUnique(Sign(c, subject, b), b, Sign(c, other, body), body, ':');
      SplitUnique(subject, b, other, body, '\n');
    }
  }

  /** No two sources share a cache entry. */
  lemma SubjectUnique(c: Crypto, s: Source, t: Source)
    requires Ideal(c) && Proper(s) && Proper(t) && Subject(c, s) == Subject(c, t)
    ensures s == t
  {
    if s.ApiKey? && t.ApiKey? {
      assert ("apikey:" + c.hash(s.secret))[7..] == c.hash(s.secret);
      assert ("apikey:" + c.hash(t.secret))[7..] == c.hash(t.secret);
    }
  }

  // ---------------------------------------------------------------- interleaved validations

  /** `pending` are the answers of the auth service not yet written to the cache, `restored`
      the subjects under whose name somebody has put a sealed entry back with a deadline that
      no answer for its identity allows. */
  datatype State = State(now: real, cache: map<string, Entry>, vouches: seq<Vouch>, pending: set<nat>,
        restored: set<string>)

  datatype Action =
    | Pass(until: real)
    | Answer(source: Source, identity: string, expiresIn: int)
    | Write(i: nat, ok: bool)
    | Evict(subject: string)
    | Read(subject: string)
    | Tamper(subject: string, raw: string, expires: real)

  /** The auth service has vouched for this subject as this identity. */
  predicate Backs(p: Setting, v: Vouch, subject: string, identity: string) {
    Proper(v.source) && Subject(p.c, v.source) == subject && v.identity == identity
  }

  /** The entry lives no longer than the answer allows. */
  predicate InTime(p: Setting, v: Vouch, expires: real) {
    expires <= v.at + p.slack + Life(p.cacheTtl, v) as real
  }

  ghost predicate Allowed(p: Setting, vouches: seq<Vouch>, subject: string, identity: string, expires: real) {
    exists i :: 0 <= i < |vouches| && Backs(p, vouches[i], subject, identity) && InTime(p, vouches[i], expires)
  }

  /** An entry that the gateway itself may have sealed for the subject, and that whoever reads
      the cache can have kept. */
  ghost predicate Captured(p: Setting, vouches: seq<Vouch>, subject: string, raw: string) {
    exists i :: 0 <= i < |vouches| && Backs(p, vouches[i], subject, vouches[i].identity)
                && raw == Seal(p.c, subject, vouches[i].identity)
  }

  /** An answer is written within `slack` seconds. Whoever else writes to the cache can write
      any entry under any name with any deadline, but cannot make up a MAC: an entry whose MAC
      fits the name has been sealed for that name before. */
  ghost predicate Enabled(p: Setting, s: State, a: Action) {
    match a
    case Pass(until) => s.now <= until && forall i :: i in s.pending && i < |s.vouches| ==>
      until <= s.vouches[i].at + p.slack
    case Answer(source, _, _) => Proper(source)
    case Write(i, _) => i in s.pending && i < |s.vouches|
    case Evict(_) => true
    case Read(_) => true
    case Tamper(subject, raw, _) => Unseal(p.c, subject, raw).None? || Captured(p, s.vouches, subject, raw)
  }

  /** SETEX of an identity; nothing is stored for a life that is not positive. */
  function Cached(p: Setting, cache: map<string, Entry>, v: Vouch, now: real): map<string, Entry> {
    var subject := Subject(p.c, v.source);
    if Life(p.cacheTtl, v) <= 0 then cache
    else cache[PREFIX + subject := Entry(Seal(p.c, subject, v.identity), now + Life(p.cacheTtl, v) as real)]
  }

  /** The gateway's own write replaces an entry that was put back. */
  function Renewed(p: Setting, restored: set<string>, v: Vouch): set<string> {
    if Life(p.cacheTtl, v) <= 0 then restored else restored - {Subject(p.c, v.source)}
  }

  /** A foreign write counts as long as its entry would be trusted for longer than any answer
      allows. */
  ghost function Restored(p: Setting, restored: set<string>, vouches: seq<Vouch>, subject: string,
        e: Entry): set<string> {
    if Unseal(p.c, subject, e.raw).Some? && !Allowed(p, vouches, subject, Unseal(p.c, subject, e.raw).value, e.expires)
    then restored + {subject} else restored - {subject}
  }

  /** What a read returns, and the eviction of an entry that does not fit. */
  function ReadBack(p: Setting, cache: map<string, Entry>, subject: string, now: real): Option<string> {
    var name := PREFIX + subject;
    if name in cache && cache[name].expires > now then Unseal(p.c, subject, cache[name].raw) else None
  }

  function AfterRead(p: Setting, cache: map<string, Entry>, subject: string, now: real): map<string, Entry> {
    var name := PREFIX + subject;
    if name in cache && cache[name].expires > now && cache[name].raw != ""
        && Unseal(p.c, subject, cache[name].raw).None?
    then cache - {name} else cache
  }

  ghost function Next(p: Setting, s: State, a: Action): State {
    match a
    case Pass(until) => s.(now := until)
    case Answer(source, identity, expiresIn) =>
      s.(vouches := s.vouches + [Vouch(source, identity, s.now, expiresIn)], pending := s.pending + {|s.vouches|})
    case Write(i, ok) =>
      if i < |s.vouches| && ok
      then s.(cache := Cached(p, s.cache, s.vouches[i], s.now), pending := s.pending - {i},
              restored := Renewed(p, s.restored, s.vouches[i]))
      else s.(pending := s.pending - {i})
    case Evict(subject) => s.(cache := s.cache - {PREFIX + subject}, restored := s.restored - {subject})
    case Read(subject) => s.(cache := AfterRead(p, s.cache, subject, s.now))
    case Tamper(subject, raw, expires) =>
      s.(cache := s.cache[PREFIX + subject := Entry(raw, expires)],
         restored := Restored(p, s.restored, s.vouches, subject, Entry(raw, expires)))
  }

  ghost predicate Legal(p: Setting, s: State, run: seq<Action>)
    decreases |run|
  {
    run == [] || (Enabled(p, s, run[0]) && Legal(p, Next(p, s, run[0]), run[1..]))
  }

  ghost function Run(p: Setting, s: State, run: seq<Action>): State
    decreases |run|
  {
    if run == [] then s else Run(p, Next(p, s, run[0]), run[1..])
  }

  ghost predicate Backed(p: Setting, vouches: seq<Vouch>, subject: string, identity: string, expires: real,
        restored: bool) {
    exists i :: 0 <= i < |vouches| && Backs(p, vouches[i], subject, identity)
        && (restored || InTime(p, vouches[i], expires))
  }

  /** The entry under the subject's name, if it would be trusted, is backed by the auth service. */
  ghost predicate EntryBacked(p: Setting, vouches: seq<Vouch>, subject: string, e: Entry, restored: bool) {
    Unseal(p.c, subject, e.raw).Some? ==>
      Backed(p, vouches, subject, Unseal(p.c, subject, e.raw).value, e.expires, restored)
  }

  /** Every entry that would be trusted is backed, and in time unless it was put back. */
  ghost predicate Trusted(p: Setting, cache: map<string, Entry>, vouches: seq<Vouch>, restored: set<string>) {
    forall subject: string :: PREFIX + subject in cache ==>
      EntryBacked(p, vouches, subject, cache[PREFIX + subject], subject in restored)
  }

  ghost predicate Inv(p: Setting, s: State) {
    && Trusted(p, s.cache, s.vouches, s.restored)
    && (forall i :: i in s.pending ==> i < |s.vouches| && s.now <= s.vouches[i].at + p.slack)
    && (forall i :: 0 <= i < |s.vouches| ==> Proper(s.vouches[i].source) && s.vouches[i].at <= s.now)
  }

  lemma NameUnique(a: string, b: string)
    requires PREFIX + a == PREFIX + b
    ensures a == b
  {
    assert (PREFIX + a)[|PREFIX|..] == a && (PREFIX + b)[|PREFIX|..] == b;
  }

  /** One entry is written and the others keep their standing. */
  lemma WriteTrusted(p: Setting, cache: map<string, Entry>, vouches: seq<Vouch>, restored: set<string>,
        after: set<string>, subject: string, e: Entry)
    requires Trusted(p, cache, vouches, restored) && EntryBacked(p, vouches, subject, e, subject in after)
    requires forall t: string :: t != subject ==> (t in after <==> t in restored)
    ensures Trusted(p, cache[PREFIX + subject := e], vouches, after)
  {
    forall t: string | PREFIX + t == PREFIX + subject ensures t == subject { NameUnique(t, subject); }
  }

  lemma CachedTrusted(p: Setting, cache: map<string, Entry>, vouches: seq<Vouch>, restored: set<string>, i: nat,
        now: real)
    requires Ideal(p.c) && Trusted(p, cache, vouches, restored) && i < |vouches| && Proper(vouches[i].source)
    requires now <= vouches[i].at + p.slack
    ensures Trusted(p, Cached(p, cache, vouches[i], now), vouches, Renewed(p, restored, vouches[i]))
  {
    var v := vouches[i];
    if Life(p.cacheTtl, v) > 0 {
      var own := Subject(p.c, v.source);
      var e := Entry(Seal(p.c, own, v.identity), now + Life(p.cacheTtl, v) as real);
      SealExact(p.c, own, e.raw, v.identity);
      assert Backs(p, v, own, v.identity) && InTime(p, v, e.expires);
      WriteTrusted(p, cache, vouches, restored, Renewed(p, restored, v), own, e);
    }
  }

  lemma MoreVouches(p: Setting, cache: map<string, Entry>, vouches: seq<Vouch>, restored: set<string>, v: Vouch)
    requires Trusted(p, cache, vouches, restored)
    ensures Trusted(p, cache, vouches + [v], restored)
  {
    forall subject: string | PREFIX + subject in cache
      ensures EntryBacked(p, vouches + [v], subject, cache[PREFIX + subject], subject in restored)
    {
      var e := cache[PREFIX + subject];
      assert EntryBacked(p, vouches, subject, e, subject in restored);
      if Unseal(p.c, subject, e.raw).Some? {
        var i :| 0 <= i < |vouches| && Backs(p, vouches[i], subject, Unseal(p.c, subject, e.raw).value)
                 && (subject in restored || InTime(p, vouches[i], e.expires));
        assert (vouches + [v])[i] == vouches[i];
      }
    }
  }

  lemma EvictTrusted(p: Setting, cache: map<string, Entry>, vouches: seq<Vouch>, restored: set<string>, subject: string)
    requires Trusted(p, cache, vouches, restored)
    ensures Trusted(p, cache - {PREFIX + subject}, vouches, restored - {subject})
    ensures Trusted(p, cache - {PREFIX + subject}, vouches, restored)
  {
  }

  /** A foreign write is either not trusted, or brings back what the auth service once vouched for. */
  lemma TamperTrusted(p: Setting, cache: map<string, Entry>, vouches: seq<Vouch>, restored: set<string>,
        subject: string, e: Entry)
    requires Ideal(p.c) && Trusted(p, cache, vouches, restored)
    requires Unseal(p.c, subject, e.raw).None? || Captured(p, vouches, subject, e.raw)
    ensures Trusted(p, cache[PREFIX + subject := e], vouches, Restored(p, restored, vouches, subject, e))
  {
    if Unseal(p.c, subject, e.raw).Some? {
      var i :| 0 <= i < |vouches| && Backs(p, vouches[i], subject, vouches[i].identity)
          && e.raw == Seal(p.c, subject, vouches[i].identity);
      SealExact(p.c, subject, e.raw, vouches[i].identity);
    }
    WriteTrusted(p, cache, vouches, restored, Restored(p, restored, vouches, subject, e), subject, e);
  }

  lemma NextInv(p: Setting, s: State, a: Action)
    requires Ideal(p.c) && 0.0 <= p.slack && Inv(p, s) && Enabled(p, s, a)
    ensures Inv(p, Next(p, s, a))
  {
    match a {
      case Pass(until) =>
      case Answer(source, identity, expiresIn) =>
        MoreVouches(p, s.cache, s.vouches, s.restored, Vouch(source, identity, s.now, expiresIn));
      case Write(i, ok) => if ok { CachedTrusted(p, s.cache, s.vouches, s.restored, i, s.now); }
      case Evict(subject) => EvictTrusted(p, s.cache, s.vouches, s.restored, subject);
      case Read(subject) => EvictTrusted(p, s.cache, s.vouches, s.restored, subject);
      case Tamper(subject, raw, expires) =>
        TamperTrusted(p, s.cache, s.vouches, s.restored, subject, Entry(raw, expires));
    }
  }

  lemma {:induction false} RunInv(p: Setting, s: State, run: seq<Action>)
    requires Ideal(p.c) && 0.0 <= p.slack && Inv(p, s) && Legal(p, s, run)
    ensures Inv(p, Run(p, s, run))
    decreases |run|
  {
    if run != [] {
      NextInv(p, s, run[0]);
      RunInv(p, Next(p, s, run[0]), run[1..]);
    }
  }

  /** In any interleaving of validations, evictions and foreign writes, an identity read from
      the cache was vouched for by the auth service, for that very token or API key. Unless
      somebody has put its entry back with a deadline that no answer allowed, that was no
      longer ago than its life plus the time the answer took to be written. */
  lemma ReadSound(p: Setting, now: real, run: seq<Action>, source: Source)
    requires Ideal(p.c) && 0.0 <= p.slack && Proper(source) && Legal(p, State(now, map[], [], {}, {}), run)
    ensures var s := Run(p, State(now, map[], [], {}, {}), run);
            var found := ReadBack(p, s.cache, Subject(p.c, source), s.now);
            found.Some? ==>
              exists i :: 0 <= i < |s.vouches| && s.vouches[i].source == source && s.vouches[i].identity == found.value
                          && s.vouches[i].at <= s.now
                          && (Subject(p.c, source) in s.restored
                              || WithinLife(source, p.cacheTtl, s.vouches[i].expiresIn,
                                            s.now - s.vouches[i].at - p.slack))
  {
    RunInv(p, State(now, map[], [], {}, {}), run);
    var s := Run(p, State(now, map[], [], {}, {}), run);
    var subject := Subject(p.c, source);
    var found := ReadBack(p, s.cache, subject, s.now);
    if found.Some? {
      var e := s.cache[PREFIX + subject];
      assert EntryBacked(p, s.vouches, subject, e, subject in s.restored);
      var i :| 0 <= i < |s.vouches| && Backs(p, s.vouches[i], subject, found.value)
               && (subject in s.restored || InTime(p, s.vouches[i], e.expires));
      SubjectUnique(p.c, s.vouches[i].source, source);
      assert s.vouches[i].source == source;
    }
  }

  /** An answer of that age may still be returned: for a token within 300 seconds, for an API key
      within the configured time and until 30 seconds before the minted token runs out. */
  predicate WithinLife(source: Source, cacheTtl: int, expiresIn: int, age: real) {
    if source.Bearer? then age < 300.0 else age < cacheTtl as real && age < (expiresIn - 30) as real
  }

  /** An answer that has been written is returned exactly for as long, unless the entry is
      replaced or evicted. */
  lemma CacheLife(p: Setting, cache: map<string, Entry>, v: Vouch, now: real, u: real)
    requires Ideal(p.c) && now <= u
    ensures var subject := Subject(p.c, v.source);
            if WithinLife(v.source, p.cacheTtl, v.expiresIn, 0.0)
            then ReadBack(p, Cached(p, cache, v, now), subject, u)
                 == if WithinLife(v.source, p.cacheTtl, v.expiresIn, u - now) then Some(v.identity) else None
            else Cached(p, cache, v, now) == cache
  {
    SealExact(p.c, Subject(p.c, v.source), Seal(p.c, Subject(p.c, v.source), v.identity), v.identity);
  }

  /** The auth service's answer for this source and identity is fresh at `t`. */
  predicate Fresh(p: Setting, v: Vouch, source: Source, identity: string, t: real) {
    v.source == source && v.identity == identity && t < v.at + p.slack + Life(p.cacheTtl, v) as real
  }

  ghost predicate FreshAt(p: Setting, vouches: seq<Vouch>, source: Source, identity: string, t: real) {
    exists i :: 0 <= i < |vouches| && Fresh(p, vouches[i], source, identity, t)
  }

  /** When no answer allows the deadline, there is a time before it from which on none is fresh. */
  lemma {:induction false} StaleFrom(p: Setting, vouches: seq<Vouch>, source: Source, identity: string, expires: real)
      returns (t: real)
    requires Proper(source) && !Allowed(p, vouches, Subject(p.c, source), identity, expires)
    ensures t < expires && forall u :: t <= u ==> !FreshAt(p, vouches, source, identity, u)
  {
    if vouches == [] {
      t := expires - 1.0;
    } else {
      var front, v := vouches[..|vouches| - 1], vouches[|vouches| - 1];
      assert vouches == front + [v];
      forall i | 0 <= i < |front|
        ensures !(Backs(p, front[i], Subject(p.c, source), identity) && InTime(p, front[i], expires))
      {
        assert vouches[i] == front[i];
      }
      t := StaleFrom(p, front, source, identity, expires);
      if v.source == source && v.identity == identity {
        assert Backs(p, v, Subject(p.c, source), identity) && v == vouches[|vouches| - 1];
        assert !InTime(p, v, expires);
        var last := v.at + p.slack + Life(p.cacheTtl, v) as real;
        t := if t < last then last else t;
      }
      forall u | t <= u ensures !FreshAt(p, vouches, source, identity, u) {
        assert !FreshAt(p, front, source, identity, u);
        forall i | 0 <= i < |vouches| ensures !Fresh(p, vouches[i], source, identity, u) {
          assert i < |front| ==> vouches[i] == front[i];
        }
      }
    }
  }

  /** An entry that is read stays fresh for as long as it will be returned if and only if some
      answer for its source and identity allows its deadline, whoever has written it. */
  lemma ReadFreshExact(p: Setting, now: real, run: seq<Action>, source: Source)
    requires Ideal(p.c) && 0.0 <= p.slack && Proper(source) && Legal(p, State(now, map[], [], {}, {}), run)
    requires var s := Run(p, State(now, map[], [], {}, {}), run);
             ReadBack(p, s.cache, Subject(p.c, source), s.now).Some?
    ensures var s, subject := Run(p, State(now, map[], [], {}, {}), run), Subject(p.c, source);
            var identity, expires := ReadBack(p, s.cache, subject, s.now).value, s.cache[PREFIX + subject].expires;
            (forall t :: s.now <= t < expires ==> FreshAt(p, s.vouches, source, identity, t))
            <==> Allowed(p, s.vouches, subject, identity, expires)
  {
    RunInv(p, State(now, map[], [], {}, {}), run);
    var s, subject := Run(p, State(now, map[], [], {}, {}), run), Subject(p.c, source);
    var identity, expires := ReadBack(p, s.cache, subject, s.now).value, s.cache[PREFIX + subject].expires;
    if Allowed(p, s.vouches, subject, identity, expires) {
      var i :| 0 <= i < |s.vouches| && Backs(p, s.vouches[i], subject, identity) && InTime(p, s.vouches[i], expires);
      SubjectUnique(p.c, s.vouches[i].source, source);
      assert forall t :: t < expires ==> Fresh(p, s.vouches[i], source, identity, t);
    } else {
      var t := StaleFrom(p, s.vouches, source, identity, expires);
      var u := if t < s.now then s.now else t;
      assert s.now <= u < expires && !FreshAt(p, s.vouches, source, identity, u);
    }
  }

  /** The exception is real: the MAC covers no deadline, so an entry put back with a later one
      is returned as long as that deadline says. */
  lemma RestoredOutlives(p: Setting, token: string, identity: string, late: real)
    requires Ideal(p.c) && 0.0 <= p.slack && Proper(Bearer(token)) && late > 0.0
    ensures var raw := Seal(p.c, token, identity);
            var run := [Answer(Bearer(token), identity, 0), Write(0, true), Tamper(token, raw, late + 1.0), Pass(late)];
            var s := Run(p, State(0.0, map[], [], {}, {}), run);
            && Legal(p, State(0.0, map[], [], {}, {}), run)
            && s.now == late && ReadBack(p, s.cache, token, s.now) == Some(identity)
            && s.vouches == [Vouch(Bearer(token), identity, 0.0, 0)]
  {
    var raw, v := Seal(p.c, token, identity), Vouch(Bearer(token), identity, 0.0, 0);
    SealExact(p.c, token, raw, identity);
    var s0 := State(0.0, map[], [], {}, {});
    var s1 := Next(p, s0, Answer(Bearer(token), identity, 0));
    assert s1 == State(0.0, map[], [v], {0}, {});
    var s2 := Next(p, s1, Write(0, true));
    assert s2.vouches == [v] && s2.now == 0.0 && s2.pending == {};
    assert Backs(p, s2.vouches[0], token, s2.vouches[0].identity);
    var s3 := Next(p, s2, Tamper(token, raw, late + 1.0));
    var s4 := Next(p, s3, Pass(late));
    FourSteps(p, s0, Answer(Bearer(token), identity, 0), Write(0, true), Tamper(token, raw, late + 1.0), Pass(late));
  }

  lemma FourSteps(p: Setting, s: State, a: Action, b: Action, c: Action, d: Action)
    requires Enabled(p, s, a) && Enabled(p, Next(p, s, a), b) && Enabled(p, Next(p, Next(p, s, a), b), c)
    requires Enabled(p, Next(p, Next(p, Next(p, s, a), b), c), d)
    ensures Legal(p, s, [a, b, c, d]) && Run(p, s, [a, b, c, d]) == Next(p, Next(p, Next(p, Next(p, s, a), b), c), d)
  {
    assert [a, b, c, d][1..] == [b, c, d] && [b, c, d][1..] == [c, d] && [c, d][1..] == [d] && [d][1..] == [];
    var t := Next(p, Next(p, Next(p, s, a), b), c);
    assert Legal(p, t, [d]) && Run(p, t, [d]) == Next(p, t, d);
    assert Legal(p, Next(p, Next(p, s, a), b), [c, d]) && Run(p, Next(p, Next(p, s, a), b), [c, d]) == Run(p, t, [d]);
  }

  /** With answers written within 30 seconds, an API key's cached access token is still valid
      whenever it is returned. */
  lemma MintedTokenAlive(p: Setting, v: Vouch, now: real)
    requires v.source.ApiKey? && p.slack <= 30.0 && now < v.at + p.slack + Life(p.cacheTtl, v) as real
    ensures now < v.at + v.expiresIn as real
    ensures now < v.at + p.slack + p.cacheTtl as real
  {
  }

  // ---------------------------------------------------------------- the client

  /** What one call of the auth service comes to. */
  datatype AuthReply = TimedOut | Broken | Invalid | Identified(identity: string, expiresIn: int)

  class IamClient {
    const p: Setting
    const exchangeEnabled: bool
    var cache: map<string, Entry>
    var clock: real
    ghost var vouches: seq<Vouch>
    ghost var restored: set<string>
    ghost var posts: nat

    ghost predicate Valid()
      reads this
    {
      && Ideal(p.c) && 0.0 <= p.slack
      && Trusted(p, cache, vouches, restored)
      && (forall i :: 0 <= i < |vouches| ==> Proper(vouches[i].source) && vouches[i].at <= clock)
    }

    /** The auth service identified exactly this source this way: just now, or not longer ago
        than the answer may be cached, or at any time when somebody has put its entry back for
        longer than that. */
    ghost predicate Vouched(source: Source, identity: string)
      reads this
    {
      exists i :: 0 <= i < |vouches| && vouches[i].source == source && vouches[i].identity == identity
                  && (Subject(p.c, source) in restored || clock <= vouches[i].at + p.slack
                      || clock < vouches[i].at + p.slack + Life(p.cacheTtl, vouches[i]) as real)
    }

    constructor (p: Setting, exchangeEnabled: bool)
      requires Ideal(p.c) && 0.0 <= p.slack
      ensures Valid() && vouches == [] && posts == 0
    {
      this.p, this.exchangeEnabled := p, exchangeEnabled;
      cache, clock, vouches, restored, posts := map[], 0.0, [], {}, 0;
    }

    method Wait(atMost: Option<real>)
      requires Valid() && (atMost.Some? ==> atMost.value >= 0.0)
      modifies this`clock
      ensures Valid() && clock >= old(clock) && (atMost.Some? ==> clock <= old(clock) + atMost.value)
    {
      var d: real :| d >= 0.0 && (atMost.Some? ==> d <= atMost.value);
      clock := clock + d;
    }

    /** Somebody else writes to the cache. */
    method Foreign(subject: string, raw: string, expires: real)
      requires Valid() && (Unseal(p.c, subject, raw).None? || Captured(p, vouches, subject, raw))
      modifies this`cache, this`restored
      ensures Valid() && cache == old(cache)[PREFIX + subject := Entry(raw, expires)]
      ensures restored == Restored(p, old(restored), vouches, subject, Entry(raw, expires))
    {
      TamperTrusted(p, cache, vouches, restored, subject, Entry(raw, expires));
      cache := cache[PREFIX + subject := Entry(raw, expires)];
      restored := Restored(p, restored, vouches, subject, Entry(raw, expires));
    }

    /** Deletes the entry, unless the store fails. */
    method EvictEntry(subject: string)
      requires Valid()
      modifies this`cache
      ensures Valid() && (cache == old(cache) - {PREFIX + subject} || cache == old(cache))
    {
      if * { return; }
      EvictTrusted(p, cache, vouches, restored, subject);
      cache := cache - {PREFIX + subject};
    }

    /** A cached identity, if the entry is live and its MAC fits; a live entry whose MAC does
        not fit is evicted. A failing store reads as a miss. */
    method GetCached(source: Source) returns (r: Option<string>, ghost failed: bool)
      requires Valid() && Proper(source)
      modifies this`cache, this`clock
      ensures Valid() && clock >= old(clock)
      ensures r == if failed then None else ReadBack(p, old(cache), Subject(p.c, source), clock)
      ensures cache == old(cache) || cache == AfterRead(p, old(cache), Subject(p.c, source), clock)
      ensures r.Some? ==> Vouched(source, r.value) && cache == old(cache)
    {
      Wait(None);
      if * { return None, true; }
      failed := false;
      var subject := Subject(p.c, source);
      var name := PREFIX + subject;
      if name !in cache || cache[name].expires <= clock || cache[name].raw == "" { return None, false; }
      r := Unseal(p.c, subject, cache[name].raw);
      if r.None? {
        EvictEntry(subject);
      } else {
        assert EntryBacked(p, vouches, subject, cache[name], subject in restored);
        ghost var i :| 0 <= i < |vouches| && Backs(p, vouches[i], subject, r.value)
                       && (subject in restored || InTime(p, vouches[i], cache[name].expires));
        SubjectUnique(p.c, vouches[i].source, source);
        assert vouches[i].source == source;
      }
    }

    /** Writes the answer for `source` to the cache, unless its life is over or the store fails. */
    method SetCached(source: Source, identity: string, ttl: int, ghost i: nat)
      requires Valid() && i < |vouches| && vouches[i].source == source && vouches[i].identity == identity
      requires ttl == Life(p.cacheTtl, vouches[i]) && clock <= vouches[i].at
      modifies this`cache, this`clock, this`restored
      ensures Valid() && old(clock) <= clock <= old(clock) + p.slack
      ensures || (cache == old(cache) && restored == old(restored))
              || (cache == Cached(p, old(cache), vouches[i], clock)
                  && restored == Renewed(p, old(restored), vouches[i]))
    {
      Wait(Some(p.slack));
      if ttl <= 0 { return; }
      if * { return; }
      CachedTrusted(p, cache, vouches, restored, i, clock);
      var subject := Subject(p.c, source);
      cache := cache[PREFIX + subject := Entry(Seal(p.c, subject, identity), clock + ttl as real)];
      restored := Renewed(p, restored, vouches[i]);
    }

    /** One request to the auth service. */
    method Post(source: Source) returns (reply: AuthReply)
      requires Valid() && Proper(source)
      modifies this`clock, this`vouches, this`posts
      ensures Valid() && clock >= old(clock) && posts == old(posts) + 1
      ensures vouches == old(vouches)
                         + if reply.Identified? then [Vouch(source, reply.identity, clock, reply.expiresIn)] else []
    {
      Wait(None);
      posts := posts + 1;
      if * { return TimedOut; }
      if * { return Broken; }
      if * { return Invalid; }
      var identity: string, expiresIn: int := *, *;
      reply := Identified(identity, expiresIn);
      MoreVouches(p, cache, vouches, restored, Vouch(source, identity, clock, expiresIn));
      vouches := vouches + [Vouch(source, identity, clock, expiresIn)];
    }

    /** One more answer is on record, for this source and with this identity. */
    ghost predicate Answered(before: seq<Vouch>, source: Source, identity: string)
      reads this
    {
      && |vouches| == |before| + 1 && vouches[..|before|] == before
      && vouches[|before|].source == source && vouches[|before|].identity == identity
    }

    /** What the auth service has said, and what becomes of the cache. */
    twostate predicate Concluded(source: Source, new replies: seq<AuthReply>, new r: Option<string>)
      requires replies != []
      reads this
    {
      var name := PREFIX + Subject(p.c, source);
      match replies[|replies| - 1]
      case Identified(identity, _) => r == Some(identity) && Answered(old(vouches), source, identity)
          && Vouched(source, identity)
      case Invalid => r.None? && vouches == old(vouches) && (cache == old(cache) || cache == old(cache) - {name})
      case _ => r.None? && vouches == old(vouches) && cache == old(cache)
    }

    /** Asks the auth service, a second time only after a timeout, and caches what it answers. An
        identity is returned exactly when the last reply is that identity. */
    method Ask(source: Source) returns (r: Option<string>, ghost replies: seq<AuthReply>)
      requires Valid() && Proper(source)
      modifies this
      ensures Valid() && 1 <= |replies| <= 2 && posts == old(posts) + |replies|
      ensures |replies| == 2 <==> replies[0].TimedOut?
      ensures Concluded(source, replies, r)
    {
      var attempt := 0;
      replies := [];
      while attempt < 2
        invariant 0 <= attempt <= 2 && Valid() && posts == old(posts) + attempt && |replies| == attempt
        invariant vouches == old(vouches) && cache == old(cache)
        invariant attempt > 0 ==> replies[0].TimedOut? && replies[attempt - 1].TimedOut?
        invariant attempt == 2 ==> false
      {
        var reply := Post(source);
        replies := replies + [reply];
        attempt := attempt + 1;
        match reply {
          case TimedOut => if attempt == 2 { return None, replies; }
          case Broken => return None, replies;
          case Invalid =>
            EvictEntry(Subject(p.c, source));
            return None, replies;
          case Identified(identity, expiresIn) =>
            var ttl := if source.Bearer? then TOKEN_TTL
                       else if p.cacheTtl <= expiresIn - 30 then p.cacheTtl else expiresIn - 30;
            ghost var last := |vouches| - 1;
            assert vouches[last] == Vouch(source, identity, clock, expiresIn);
            SetCached(source, identity, ttl, last);
            return Some(identity), replies;
        }
      }
    }

    /** A bearer token: the cache first, then the local check of signature and expiry, then the
        auth service. A hit asks nobody and needs no check; without one, a token that does not
        pass the check is refused and nobody is asked, and for any other the auth service decides. */
    method Validate(token: string, decodes: bool)
        returns (r: Option<string>, ghost hit: bool, ghost failed: bool, ghost t: real)
      requires Valid() && Proper(Bearer(token))
      modifies this
      ensures Valid() && posts <= old(posts) + 2
      ensures hit <==> !failed && ReadBack(p, old(cache), token, t).Some?
      ensures hit ==> r == ReadBack(p, old(cache), token, t) && posts == old(posts)
      ensures !hit && !decodes ==> r.None? && posts == old(posts)
      ensures !hit && decodes ==> posts > old(posts)
      ensures r.Some? ==> Vouched(Bearer(token), r.value)
      ensures r.Some? && !hit ==> Answered(old(vouches), Bearer(token), r.value)
      ensures hit || r.None? ==> vouches == old(vouches)
    {
      r, failed := GetCached(Bearer(token));
      t, hit := clock, r.Some?;
      if r.Some? { return; }
      if !decodes { return; }
      ghost var replies;
      r, replies := Ask(Bearer(token));
    }

    /** An API key: nothing is looked up or asked unless the exchange is configured and the
        text is an API key; then the cache first, and on a miss the auth service decides. */
    method ValidateApiKey(secret: string)
          returns (r: Option<string>, ghost hit: bool, ghost failed: bool, ghost t: real)
      requires Valid()
      modifies this
      ensures Valid() && posts <= old(posts) + 2
      ensures !(exchangeEnabled && "omni_sk_" <= secret) ==> r.None? && posts == old(posts) && cache == old(cache)
      ensures exchangeEnabled && "omni_sk_" <= secret ==>
        && (hit <==> !failed && ReadBack(p, old(cache), "apikey:" + p.c.hash(secret), t).Some?)
        && (hit ==> r == ReadBack(p, old(cache), "apikey:" + p.c.hash(secret), t) && posts == old(posts))
        && (!hit ==> posts > old(posts))
      ensures r.Some? ==> Vouched(ApiKey(secret), r.value)
      ensures r.Some? && !hit ==> Answered(old(vouches), ApiKey(secret), r.value)
      ensures hit || r.None? ==> vouches == old(vouches)
    {
      hit, failed, t := false, false, clock;
      if !exchangeEnabled || !(API_KEY_PREFIX <= secret) { return None, hit, failed, t; }
      r, failed := GetCached(ApiKey(secret));
      t, hit := clock, r.Some?;
      if r.Some? { return; }
      ghost var replies;
      r, replies := Ask(ApiKey(secret));
    }
  }
}
