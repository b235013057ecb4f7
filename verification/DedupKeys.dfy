/** When two billing events share an id. The id of a call with an Idempotency-Key comes from
    its subject and that key; the id of any other call is its request id, which is the trace
    id the caller may have sent along. Token counts add a suffix. */
module DedupKeys {
  import opened Store
  import opened Lifecycle
  import opened EventIds

  predicate HasKey(req: Request) {
    req.idem.Some? && req.idem.value != ""
  }

  /** The same text, or one followed by a token suffix. */
  predicate Near(x: string, y: string) {
    x == y || x == y + INPUT || x == y + OUTPUT || y == x + INPUT || y == x + OUTPUT
  }

  ghost predicate ShareId(a: Request, b: Request) {
    exists id :: Derives(a, id) && Derives(b, id)
  }

  // ---------------------------------------------------------------- any two calls

  /** Two calls derive a common id exactly when what their ids come from is the same text, or
      one text is the other with a token suffix. */
  lemma SharedExact(a: Request, b: Request)
    ensures ShareId(a, b) <==> Near(DedupKey(a), DedupKey(b))
  {
    var x, y := DedupKey(a), DedupKey(b);
    if id :| Derives(a, id) && Derives(b, id) {
      var s := if id == x then "" else if id == x + INPUT then INPUT else OUTPUT;
      var t := if id == y then "" else if id == y + INPUT then INPUT else OUTPUT;
      assert x + "" == x && y + "" == y;
      SameEnding(x, s, y, t);
    }
    if Near(x, y) {
      var id := if |x| >= |y| then x else y;
      assert Derives(a, id) && Derives(b, id);
    }
  }

  /** The two token suffixes end differently. */
  lemma SameEnding(x: string, s: string, y: string, t: string)
    requires s in {"", INPUT, OUTPUT} && t in {"", INPUT, OUTPUT} && x + s == y + t
    ensures s == t ==> x == y
    ensures s == t || s == "" || t == ""
  {
    var id := x + s;
    assert id[..|x|] == x && id[..|y|] == y;
    if s != "" { assert id[|id| - 4] == s[|s| - 4]; }
    if t != "" { assert id[|id| - 4] == t[|t| - 4]; }
  }

  // ---------------------------------------------------------------- in terms of what the callers send

  /** A prefix in common does not matter. */
  lemma NearPrefix(p: string, x: string, y: string)
    ensures Near(p + x, p + y) <==> Near(x, y)
  {
    assert (p + x)[|p|..] == x && (p + y)[|p|..] == y;
    forall s: string ensures (p + x) + s == p + (x + s) && (p + y) + s == p + (y + s) {}
    forall s: string ensures (p + (x + s))[|p|..] == x + s && (p + (y + s))[|p|..] == y + s {}
  }

  /** Two keyed calls of one caller: exactly when the keys are the same, or one is the other
      with a token suffix. */
  lemma CallerSharesExact(a: Request, b: Request)
    requires a.subject == b.subject && HasKey(a) && HasKey(b)
    ensures ShareId(a, b) <==> Near(a.idem.value, b.idem.value)
  {
    SharedExact(a, b);
    NearPrefix(a.subject + ":", a.idem.value, b.idem.value);
  }

  /** Two keyed calls of different callers: exactly when the longer subject extends the shorter
      by a colon, and the key of the shorter spells the rest. */
  lemma SubjectsShareExact(a: Request, b: Request)
    requires a.subject != b.subject && |a.subject| <= |b.subject| && HasKey(a) && HasKey(b)
    ensures ShareId(a, b) <==>
      a.subject + ":" <= b.subject && Near(a.idem.value, Keyed(b.subject[|a.subject| + 1..], b.idem.value))
  {
    var s, x, t, y := a.subject, a.idem.value, b.subject, b.idem.value;
    SharedExact(a, b);
    if Near(Keyed(s, x), Keyed(t, y)) { NearExtends(s, x, t, y); }
    if s + ":" <= t {
      var rest := t[|s| + 1..];
      assert t == s + ":" + rest;
      assert Keyed(t, y) == (s + ":") + Keyed(rest, y);
      NearPrefix(s + ":", x, Keyed(rest, y));
    }
  }

  lemma NearExtends(s: string, x: string, t: string, y: string)
    requires s != t && |s| <= |t| && Near(Keyed(s, x), Keyed(t, y))
    ensures s + ":" <= t
  {
    var long := if |Keyed(s, x)| >= |Keyed(t, y)| then Keyed(s, x) else Keyed(t, y);
    assert Keyed(s, x) <= long && Keyed(t, y) <= long;
    assert s + ":" <= Keyed(s, x) && t + ":" <= Keyed(t, y);
    assert long[..|s|] == s && long[..|t|] == t;
    assert |s| < |t|;
    assert long[|s|] == ':';
    assert (s + ":") == t[..|s| + 1];
  }

  /** A keyed call and one without a key: exactly when the request id spells the subject, a
      colon and the key. */
  lemma TraceSharesExact(a: Request, b: Request)
    requires HasKey(a) && !HasKey(b)
    ensures ShareId(a, b) <==> Near(Keyed(a.subject, a.idem.value), b.requestId)
  {
    SharedExact(a, b);
  }

  /** Two calls without a key, whoever makes them: exactly when they carry the same request id,
      or one is the other with a token suffix. */
  lemma TracesShareExact(a: Request, b: Request)
    requires !HasKey(a) && !HasKey(b)
    ensures ShareId(a, b) <==> Near(a.requestId, b.requestId)
  {
    SharedExact(a, b);
  }

  // ---------------------------------------------------------------- inputs on which ids coincide

  function Plainly(subject: string, idem: Option<string>, requestId: string): Request {
    Request(subject, "acme", LiteratureSearch, idem, 0, false, false, false, requestId, "")
  }

  /** Two callers that send one trace id share an id, and so does a caller whose trace id spells
      another's subject and key. */
  lemma TraceWitness()
    ensures ShareId(Plainly("api_key:1", None, "trace"), Plainly("user:2", None, "trace"))
    ensures ShareId(Plainly("user:1", Some("k"), "trace"), Plainly("user:2", None, "user:1:k"))
  {
    SharedExact(Plainly("api_key:1", None, "trace"), Plainly("user:2", None, "trace"));
    SharedExact(Plainly("user:1", Some("k"), "trace"), Plainly("user:2", None, "user:1:k"));
    assert Keyed("user:1", "k") == "user:1:k";
  }

  // ---------------------------------------------------------------- keyed calls alone

  /** One caller's keys never share an id. */
  lemma SameSubject(subject: string, a: string, b: string)
    requires Keyed(subject, a) == Keyed(subject, b)
    ensures a == b
  {
    assert Keyed(subject, a)[|subject| + 1..] == a;
    assert Keyed(subject, b)[|subject| + 1..] == b;
  }

  /** Two different callers have keys under which their own ids coincide exactly when one
      subject, followed by a colon, is a prefix of the other. */
  lemma SharedIdExact(s: string, t: string)
    requires s != t
    ensures (exists a, b :: a != "" && b != "" && Keyed(s, a) == Keyed(t, b)) <==> s + ":" <= t || t + ":" <= s
  {
    if a, b :| a != "" && b != "" && Keyed(s, a) == Keyed(t, b) {
      if |s| <= |t| { NearExtends(s, a, t, b); } else { NearExtends(t, b, s, a); }
    }
    if s + ":" <= t { Collide(s, t); }
    if t + ":" <= s { Collide(t, s); }
  }

  lemma Collide(s: string, t: string)
    requires s + ":" <= t
    ensures exists a, b :: a != "" && b != "" && Keyed(s, a) == Keyed(t, b)
    ensures exists a, b :: a != "" && b != "" && Keyed(t, a) == Keyed(s, b)
  {
    var a := t[|s| + 1..] + ":k";
    assert t == s + ":" + t[|s| + 1..];
    assert Keyed(s, a) == Keyed(t, "k");
  }
}
