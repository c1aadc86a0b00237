/**
 The Redis keys of the storage driver: how they are printed, and that they can be read back.
 Names are the UTF-8 bytes of the source's strings; keys are plain ASCII text.
 */
module RedisKey {
  import opened Wrappers
  import opened Payloads

  /** What a payload is stored for: nothing, a workflow, or an activity. */
  datatype Kind = ForWorkflow | ForActivity
  datatype Target =
    | NoTarget
    | Target(kind: Kind, namespace: Option<Bytes>, typ: Option<Bytes>, id: Option<Bytes>, runId: Option<Bytes>)

  /** The unreserved characters of section 2.3 of RFC 3986. */
  predicate Unreserved(b: Byte) {
    || 0x41 <= b <= 0x5A || 0x61 <= b <= 0x7A || 0x30 <= b <= 0x39
    || b == 0x5F || b == 0x2E || b == 0x2D || b == 0x7E
  }

  function HexDigit(n: int): char
    requires 0 <= n < 16
  {
    if n < 10 then (0x30 + n) as char else (0x41 + n - 10) as char
  }

  function HexValue(c: char): Option<int> {
    if '0' <= c <= '9' then Some(c as int - 0x30)
    else if 'A' <= c <= 'F' then Some(c as int - 0x41 + 10)
    else None
  }

  /** Percent-encoding with no extra safe characters (section 2.1 of RFC 3986). */
  function Quote(bs: Bytes): string {
    if bs == [] then ""
    else (if Unreserved(bs[0]) then [bs[0] as char] else ['%', HexDigit(bs[0] / 16), HexDigit(bs[0] % 16)]) + Quote(bs[1..])
  }

  function Unquote(s: string): Option<Bytes> {
    if s == "" then Some([])
    else if s[0] == '%' then
      if |s| < 3 || HexValue(s[1]).None? || HexValue(s[2]).None? then None
      else
        match Unquote(s[3..])
        case None => None
        case Some(rest) => Some([HexValue(s[1]).value * 16 + HexValue(s[2]).value] + rest)
    else if s[0] as int >= 256 then None
    else
      match Unquote(s[1..])
      case None => None
      case Some(rest) => Some([s[0] as int] + rest)
  }

  lemma HexRoundTrip(n: int)
    requires 0 <= n < 16
    ensures HexValue(HexDigit(n)) == Some(n) && HexDigit(n) != ':'
  {}

  lemma {:induction false} QuoteRoundTrip(bs: Bytes)
    ensures Unquote(Quote(bs)) == Some(bs)
    ensures ':' !in Quote(bs)
    ensures Quote(bs) == "" <==> bs == []
  {
    if bs != [] {
      var b, rest := bs[0], Quote(bs[1..]);
      QuoteRoundTrip(bs[1..]);
      if Unreserved(b) {
        assert Quote(bs) == [b as char] + rest;
        assert Quote(bs)[1..] == rest;
      } else {
        HexRoundTrip(b / 16);
        HexRoundTrip(b % 16);
        assert Quote(bs) == ['%', HexDigit(b / 16), HexDigit(b % 16)] + rest;
        assert Quote(bs)[3..] == rest;
      }
      assert [b] + bs[1..] == bs;
    }
  }

  /** What stays as it is: letters, digits and `-._~`. Every other byte becomes a percent sign and two
      upper-case hexadecimal digits. */
  lemma QuotesExactly(b: Byte, rest: Bytes)
    ensures var c := b as char;
      Quote([b] + rest) ==
        (if 'A' <= c <= 'Z' || 'a' <= c <= 'z' || '0' <= c <= '9' || c in "-._~" then [c]
         else ['%', "0123456789ABCDEF"[b / 16], "0123456789ABCDEF"[b % 16]]) + Quote(rest)
  {
    assert ([b] + rest)[1..] == rest;
    assert HexDigit(b / 16) == "0123456789ABCDEF"[b / 16] && HexDigit(b % 16) == "0123456789ABCDEF"[b % 16];
  }

  // ----- Printing -----

  /** An absent or empty name is not quoted at all. */
  function QuoteName(name: Option<Bytes>): Option<string> {
    if name.Some? && name.value != [] then Some(Quote(name.value)) else None
  }

  function OrNull(quoted: Option<string>): string {
    if quoted.Some? then quoted.value else "null"
  }

  function Segments(target: Target, digest: string): seq<string> {
    ["v0"] +
    (if target.Target? && QuoteName(target.namespace).Some? then ["ns", QuoteName(target.namespace).value] else []) +
    (if target.NoTarget? then [] else
       [if target.kind.ForWorkflow? then "wt" else "at", OrNull(QuoteName(target.typ)),
        if target.kind.ForWorkflow? then "wi" else "ai", OrNull(QuoteName(target.id)),
        "ri", OrNull(QuoteName(target.runId))]) +
    ["d", "sha256", digest]
  }

  function Join(segments: seq<string>): string {
    if segments == [] then ""
    else if |segments| == 1 then segments[0]
    else segments[0] + ":" + Join(segments[1..])
  }

  /** The configured prefix without its trailing colons. */
  function Trim(prefix: string): string {
    if prefix != "" && prefix[|prefix| - 1] == ':' then Trim(prefix[..|prefix| - 1]) else prefix
  }

  function Key(prefix: string, target: Target, digest: string): string {
    if Trim(prefix) == "" then Join(Segments(target, digest))
    else Trim(prefix) + ":" + Join(Segments(target, digest))
  }

  method BuildKey(prefix: string, target: Target, digest: string) returns (key: string)
    ensures key == Key(prefix, target, digest)
  {
    var segments := ["v0"];
    var namespace := if target.Target? then QuoteName(target.namespace) else None;
    if namespace.Some? {
      segments := segments + ["ns", namespace.value];
    }
    if target.Target? && target.kind.ForWorkflow? {
      segments := segments + ["wt", OrNull(QuoteName(target.typ)), "wi", OrNull(QuoteName(target.id)),
                              "ri", OrNull(QuoteName(target.runId))];
    } else if target.Target? {
      segments := segments + ["at", OrNull(QuoteName(target.typ)), "ai", OrNull(QuoteName(target.id)),
                              "ri", OrNull(QuoteName(target.runId))];
    }
    segments := segments + ["d", "sha256", digest];
    assert segments == Segments(target, digest);
    var stripped := prefix;
    while stripped != "" && stripped[|stripped| - 1] == ':'
      invariant Trim(stripped) == Trim(prefix)
      decreases |stripped|
    {
      stripped := stripped[..|stripped| - 1];
    }
    return if stripped == "" then Join(segments) else stripped + ":" + Join(segments);
  }

  /** Just the colons at the end of the prefix are taken off, and all of them. */
  lemma {:induction false} TrimsExactly(prefix: string)
    ensures Trim(prefix) <= prefix
    ensures forall i :: |Trim(prefix)| <= i < |prefix| ==> prefix[i] == ':'
    ensures Trim(prefix) != "" ==> Trim(prefix)[|Trim(prefix)| - 1] != ':'
  {
    if prefix != "" && prefix[|prefix| - 1] == ':' {
      TrimsExactly(prefix[..|prefix| - 1]);
    }
  }

  function Field(name: Option<Bytes>): string {
    if name.Some? && name.value != [] then Quote(name.value) else "null"
  }

  /** The segments of a key: of no scope, of a workflow's and of an activity's. */
  lemma SegmentText(target: Target, digest: string)
    ensures target.NoTarget? ==> Segments(target, digest) == ["v0", "d", "sha256", digest]
    ensures target.Target? ==>
      var scope := if target.namespace.Some? && target.namespace.value != [] then ["v0", "ns", Quote(target.namespace.value)]
                   else ["v0"];
      var typ, id, run := Field(target.typ), Field(target.id), Field(target.runId);
      Segments(target, digest) ==
        if target.kind.ForWorkflow? then scope + ["wt", typ, "wi", id, "ri", run, "d", "sha256", digest]
        else scope + ["at", typ, "ai", id, "ri", run, "d", "sha256", digest]
  {}

  /** The prefix, if it is more than colons, stands in front with one colon. */
  lemma PrefixText(prefix: string, target: Target, digest: string)
    ensures Key(prefix, target, digest) ==
      if Trim(prefix) == "" then Join(Segments(target, digest)) else Trim(prefix) + ":" + Join(Segments(target, digest))
  {}

  /** Segments are separated by one colon each. */
  lemma JoinsWithColons(first: string, rest: seq<string>)
    ensures Join([first]) == first
    ensures rest != [] ==> Join([first] + rest) == first + ":" + Join(rest)
  {
    assert ([first] + rest)[1..] == rest;
  }

  // ----- Reading back -----

  function Split(s: string): (parts: seq<string>)
    ensures parts != []
  {
    if s == "" then [""]
    else if s[0] == ':' then [""] + Split(s[1..])
    else
      var rest := Split(s[1..]);
      [[s[0]] + rest[0]] + rest[1..]
  }

  function ParseTail(ns: Option<Bytes>, segments: seq<string>): Option<(Target, string)> {
    if |segments| == 3 && segments[0] == "d" && segments[1] == "sha256" && ns.None? then Some((NoTarget, segments[2]))
    else if |segments| == 9
      && ((segments[0] == "wt" && segments[2] == "wi") || (segments[0] == "at" && segments[2] == "ai"))
      && segments[4] == "ri" && segments[6] == "d" && segments[7] == "sha256"
      && Unquote(segments[1]).Some? && Unquote(segments[3]).Some? && Unquote(segments[5]).Some? then
      Some((Target(if segments[0] == "wt" then ForWorkflow else ForActivity, ns,
                   Unquote(segments[1]), Unquote(segments[3]), Unquote(segments[5])), segments[8]))
    else None
  }

  function ParseSegments(segments: seq<string>): Option<(Target, string)> {
    if segments == [] || segments[0] != "v0" then None
    else if |segments| >= 3 && segments[1] == "ns" then
      if Unquote(segments[2]).Some? then ParseTail(Unquote(segments[2]), segments[3..]) else None
    else ParseTail(None, segments[1..])
  }

  function Parse(prefix: string, key: string): Option<(Target, string)> {
    var skip := if Trim(prefix) == "" then 0 else |Trim(prefix)| + 1;
    if |key| < skip then None else ParseSegments(Split(key[skip..]))
  }

  const NULL: Bytes := [0x6E, 0x75, 0x6C, 0x6C]

  /** What a key can tell about a name: absent, empty and `null` are one. */
  function NormalName(name: Option<Bytes>): Option<Bytes> {
    if name.Some? && name.value != [] then name else Some(NULL)
  }

  /** What a key can tell about a target; an empty namespace is no namespace. */
  function Normal(target: Target): Target {
    match target
    case NoTarget => NoTarget
    case Target(kind, namespace, typ, id, runId) =>
      Target(kind, if namespace == Some([]) then None else namespace, NormalName(typ), NormalName(id), NormalName(runId))
  }

  lemma {:induction false} SplitHead(a: string, b: string)
    requires ':' !in a
    ensures Split(a) == [a]
    ensures Split(a + ":" + b) == [a] + Split(b)
  {
    if a == "" {
      assert (a + ":" + b)[1..] == b;
    } else {
      SplitHead(a[1..], b);
      assert [a[0]] + a[1..] == a;
      assert (a + ":" + b)[1..] == a[1..] + ":" + b;
    }
  }

  lemma {:induction false} SplitJoin(segments: seq<string>)
    requires segments != [] && forall s :: s in segments ==> ':' !in s
    ensures Split(Join(segments)) == segments
  {
    SplitHead(segments[0], Join(segments[1..]));
    if |segments| > 1 {
      SplitJoin(segments[1..]);
    }
  }

  lemma NameReadBack(name: Option<Bytes>)
    ensures Unquote(OrNull(QuoteName(name))) == NormalName(name)
    ensures ':' !in OrNull(QuoteName(name))
  {
    if QuoteName(name).Some? {
      QuoteRoundTrip(name.value);
    } else {
      QuoteRoundTrip(NULL);
      NullQuotesItself();
    }
  }

  lemma NullQuotesItself()
    ensures Quote(NULL) == "null"
  {
    assert NULL[1..] == [0x75, 0x6C, 0x6C] && NULL[1..][1..] == [0x6C, 0x6C] && NULL[1..][1..][1..] == [0x6C];
    assert Quote([0x6C]) == "l";
    assert Quote([0x6C, 0x6C]) == "l" + Quote([0x6C]);
    assert Quote([0x75, 0x6C, 0x6C]) == "u" + Quote([0x6C, 0x6C]);
    assert Quote(NULL) == "n" + Quote([0x75, 0x6C, 0x6C]);
  }

  lemma SegmentsPlain(target: Target, digest: string)
    requires ':' !in digest
    ensures forall s :: s in Segments(target, digest) ==> ':' !in s
  {
    if target.Target? {
      if QuoteName(target.namespace).Some? {
        QuoteRoundTrip(target.namespace.value);
      }
      NameReadBack(target.typ);
      NameReadBack(target.id);
      NameReadBack(target.runId);
    }
  }

  lemma TailReadBack(target: Target, ns: Option<Bytes>, digest: string)
    requires target.Target?
    ensures ParseTail(ns, [if target.kind.ForWorkflow? then "wt" else "at", OrNull(QuoteName(target.typ)),
                           if target.kind.ForWorkflow? then "wi" else "ai", OrNull(QuoteName(target.id)),
                           "ri", OrNull(QuoteName(target.runId)), "d", "sha256", digest])
         == Some((Target(target.kind, ns, NormalName(target.typ), NormalName(target.id), NormalName(target.runId)), digest))
  {
    NameReadBack(target.typ);
    NameReadBack(target.id);
    NameReadBack(target.runId);
  }

  lemma SegmentsReadBack(target: Target, digest: string)
    ensures ParseSegments(Segments(target, digest)) == Some((Normal(target), digest))
  {
    var segments := Segments(target, digest);
    if target.NoTarget? {
      assert segments[1..] == ["d", "sha256", digest];
    } else {
      var tail := [if target.kind.ForWorkflow? then "wt" else "at", OrNull(QuoteName(target.typ)),
                   if target.kind.ForWorkflow? then "wi" else "ai", OrNull(QuoteName(target.id)),
                   "ri", OrNull(QuoteName(target.runId)), "d", "sha256", digest];
      if QuoteName(target.namespace).Some? {
        QuoteRoundTrip(target.namespace.value);
        assert segments[3..] == tail;
        TailReadBack(target, target.namespace, digest);
      } else {
        assert segments[1..] == tail;
        TailReadBack(target, None, digest);
      }
    }
  }

  /** Reading a printed key gives back everything but the difference between an absent, an empty
      and a `null` name, and between an empty and an absent namespace. */
  lemma ReadBack(prefix: string, target: Target, digest: string)
    requires ':' !in digest
    ensures Parse(prefix, Key(prefix, target, digest)) == Some((Normal(target), digest))
  {
    var skip := if Trim(prefix) == "" then 0 else |Trim(prefix)| + 1;
    assert Key(prefix, target, digest)[skip..] == Join(Segments(target, digest));
    SegmentsPlain(target, digest);
    SplitJoin(Segments(target, digest));
    SegmentsReadBack(target, digest);
  }

  lemma NormalPrintsSame(prefix: string, target: Target, digest: string)
    ensures Key(prefix, Normal(target), digest) == Key(prefix, target, digest)
  {
    NullQuotesItself();
    assert Segments(Normal(target), digest) == Segments(target, digest);
  }

  /** Two keys under one prefix are equal exactly when they name the same scope and digest. */
  lemma KeysDetermine(prefix: string, t1: Target, d1: string, t2: Target, d2: string)
    requires ':' !in d1 && ':' !in d2
    ensures Key(prefix, t1, d1) == Key(prefix, t2, d2) <==> Normal(t1) == Normal(t2) && d1 == d2
  {
    ReadBack(prefix, t1, d1);
    ReadBack(prefix, t2, d2);
    NormalPrintsSame(prefix, t1, d1);
    NormalPrintsSame(prefix, t2, d2);
  }
}
