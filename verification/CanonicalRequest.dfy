/**
  The string an App Attest assertion signs (attest/request.go): method, request target and body
  digest, with the query in an order of its own. The theorem is that two requests share a
  canonical string exactly when they are the same request.
 */
module CanonicalRequest {
  import opened Common
  import opened Sorting

  type Byte = b: int | 0 <= b < 256
  type Bytes = seq<Byte>
  datatype Pair = Pair(key: Bytes, value: Bytes)

  const NEWLINE: Byte := 10
  const SPACE: Byte := 32
  const PERCENT: Byte := 37
  const AMPERSAND: Byte := 38
  const PLUS: Byte := 43
  const SLASH: Byte := 47
  const EQUALS: Byte := 61
  const BACKSLASH: Byte := 92
  const DOT: Byte := 46

  // ---------------------------------------------------------------- percent encoding

  /** The unreserved characters of section 2.3 of RFC 3986. */
  predicate Unreserved(b: Byte) {
    48 <= b <= 57 || 65 <= b <= 90 || 97 <= b <= 122 || b == 45 || b == DOT || b == 95 || b == 126
  }

  /** Characters a path keeps besides the unreserved ones: $ & + , / : ; = @ (but not ?). */
  const PATH_KEEPS: set<Byte> := {36, 38, 43, 44, 47, 58, 59, 61, 64}

  function UpperHex(n: int): Byte
    requires 0 <= n < 16
  {
    if n < 10 then 48 + n else 55 + n
  }

  function HexValue(b: Byte): int {
    if 48 <= b <= 57 then b - 48 else if 65 <= b <= 70 then b - 55 else 0
  }

  function EncodeByte(b: Byte, keeps: set<Byte>): Bytes {
    if Unreserved(b) || b in keeps then [b] else [PERCENT, UpperHex(b / 16), UpperHex(b % 16)]
  }

  /** Percent encoding of section 2.1 of RFC 3986, byte by byte. */
  function Encode(s: Bytes, keeps: set<Byte>): Bytes {
    if s == [] then [] else EncodeByte(s[0], keeps) + Encode(s[1..], keeps)
  }

  function Decode(s: Bytes): Bytes
    decreases |s|
  {
    if s == [] then []
    else if s[0] == PERCENT && |s| >= 3 then [(HexValue(s[1]) * 16 + HexValue(s[2])) % 256] + Decode(s[3..])
    else [s[0]] + Decode(s[1..])
  }

  lemma {:induction false} EncodeRoundTrip(s: Bytes, keeps: set<Byte>)
    requires PERCENT !in keeps
    ensures Decode(Encode(s, keeps)) == s
    decreases |s|
  {
    if s != [] {
      var head, tail := EncodeByte(s[0], keeps), Encode(s[1..], keeps);
      EncodeRoundTrip(s[1..], keeps);
      if |head| == 1 {
        assert (head + tail)[1..] == tail;
      } else {
        assert (head + tail)[3..] == tail;
        assert HexValue(head[1]) * 16 + HexValue(head[2]) == s[0];
      }
    }
  }

  /** An encoding contains nothing but unreserved bytes, the kept ones and the percent sign. */
  lemma {:induction false} EncodeAlphabet(s: Bytes, keeps: set<Byte>, b: Byte)
    requires b in Encode(s, keeps)
    ensures Unreserved(b) || b in keeps || b == PERCENT
    decreases |s|
  {
    if s != [] && b !in EncodeByte(s[0], keeps) {
      EncodeAlphabet(s[1..], keeps, b);
    }
  }

  const DIGITS := "0123456789ABCDEF"
  const KEPT_IN_PATHS := "$&+,/:;=@"

  lemma HexMeans(n: int)
    requires 0 <= n < 16
    ensures UpperHex(n) == DIGITS[n] as int
  {
  }

  /** Letters, digits, hyphen, period, underscore and tilde. */
  predicate AlwaysKept(c: char) {
    'A' <= c <= 'Z' || 'a' <= c <= 'z' || '0' <= c <= '9' || c in "-._~"
  }

  lemma UnreservedMeans(b: Byte)
    ensures Unreserved(b) <==> AlwaysKept(b as char)
  {
  }

  lemma PathKeepsMeans(b: Byte)
    ensures b in PATH_KEEPS <==> b as char in KEPT_IN_PATHS
  {
  }

  /** A byte in a query or a path: as it is if the standard allows it there, otherwise a percent sign and two digits. */
  lemma EncodeByteMeans(b: Byte)
    ensures EncodeByte(b, {})
         == if AlwaysKept(b as char) then [b] else [37, DIGITS[b / 16] as int, DIGITS[b % 16] as int]
    ensures EncodeByte(b, PATH_KEEPS)
         == if AlwaysKept(b as char) || b as char in KEPT_IN_PATHS then [b]
            else [37, DIGITS[b / 16] as int, DIGITS[b % 16] as int]
  {
    UnreservedMeans(b);
    PathKeepsMeans(b);
    HexMeans(b / 16);
    HexMeans(b % 16);
  }

  // ---------------------------------------------------------------- the query escape as written

  /** Form encoding: a space becomes a plus sign. */
  function QueryEscape(s: Bytes): Bytes {
    if s == [] then []
    else (if s[0] == SPACE then [PLUS] else EncodeByte(s[0], {})) + QueryEscape(s[1..])
  }

  function ReplacePlus(s: Bytes): Bytes {
    if s == [] then []
    else (if s[0] == PLUS then [PERCENT, 50, 48] else [s[0]]) + ReplacePlus(s[1..])
  }

  function Rfc3986QueryEscape(s: Bytes): Bytes {
    ReplacePlus(QueryEscape(s))
  }

  lemma {:induction false} ReplacePlusConcat(a: Bytes, b: Bytes)
    ensures ReplacePlus(a + b) == ReplacePlus(a) + ReplacePlus(b)
    decreases |a|
  {
    if a == [] {
      assert a + b == b;
    } else {
      assert (a + b)[1..] == a[1..] + b;
      ReplacePlusConcat(a[1..], b);
    }
  }

  lemma ReplacePlusNone(s: Bytes)
    requires PLUS !in s && |s| <= 3
    ensures ReplacePlus(s) == s
  {
    if |s| >= 1 {
      assert s == [s[0]] + s[1..];
      if |s| >= 2 {
        assert s[1..] == [s[1]] + s[2..];
        assert s[1..][1..] == s[2..];
        if |s| == 3 {
          assert s[2..] == [s[2]] && s[2..][1..] == [];
        }
      }
    }
  }

  /** The replacement touches only the plus signs that stand for spaces. */
  lemma {:induction false} QueryEscapeIsPercentEncoding(s: Bytes)
    ensures Rfc3986QueryEscape(s) == Encode(s, {})
    decreases |s|
  {
    if s != [] {
      var head := if s[0] == SPACE then [PLUS] else EncodeByte(s[0], {});
      ReplacePlusConcat(head, QueryEscape(s[1..]));
      if s[0] != SPACE {
        ReplacePlusNone(head);
      } else {
        assert head[1..] == [];
        assert ReplacePlus(head) == [PERCENT, 50, 48] + ReplacePlus([]);
      }
      QueryEscapeIsPercentEncoding(s[1..]);
    }
  }

  // ---------------------------------------------------------------- splitting at separators

  lemma FirstSeparator(a: Bytes, b: Bytes, c: Bytes, d: Bytes, sep: Byte)
    requires a + [sep] + b == c + [sep] + d && sep !in a && sep !in c
    ensures a == c && b == d
  {
    var x, y := a + [sep] + b, c + [sep] + d;
    assert x[|a|] == sep && y[|c|] == sep;
    assert forall i :: 0 <= i < |a| ==> x[i] == a[i] && a[i] in a;
    assert forall i :: 0 <= i < |c| ==> y[i] == c[i] && c[i] in c;
    assert x[..|a|] == a && y[..|c|] == c;
    assert x[|a| + 1..] == b && y[|c| + 1..] == d;
  }

  /** What follows a separator and holds none cannot hold one at `k`. */
  lemma SeparatorNotAfter(a: Bytes, b: Bytes, sep: Byte, k: nat)
    requires k < |a + [sep] + b| && (a + [sep] + b)[k] == sep && sep !in b
    ensures k <= |a|
  {
    var x := a + [sep] + b;
    assert forall i :: |a| < i < |x| ==> x[i] == b[i - |a| - 1] && x[i] in b;
  }

  lemma LastSeparator(a: Bytes, b: Bytes, c: Bytes, d: Bytes, sep: Byte)
    requires a + [sep] + b == c + [sep] + d && sep !in b && sep !in d
    ensures a == c && b == d
  {
    var x := a + [sep] + b;
    assert x[|a|] == sep && x[|c|] == sep;
    SeparatorNotAfter(a, b, sep, |c|);
    SeparatorNotAfter(c, d, sep, |a|);
    assert a == x[..|a|] == c;
    assert b == x[|a| + 1..] == d;
  }

  function PairText(p: Pair): Bytes {
    p.key + [EQUALS] + p.value
  }

  /** strings.Join of the pair texts with an ampersand. */
  function JoinPairs(ps: seq<Pair>): Bytes {
    if ps == [] then []
    else if |ps| == 1 then PairText(ps[0])
    else PairText(ps[0]) + [AMPERSAND] + JoinPairs(ps[1..])
  }

  /** A field free of the separators of the query and of the canonical string. */
  predicate Clean(s: Bytes) {
    AMPERSAND !in s && EQUALS !in s && NEWLINE !in s
  }

  predicate CleanPairs(ps: seq<Pair>) {
    forall i :: 0 <= i < |ps| ==> Clean(ps[i].key) && Clean(ps[i].value)
  }

  lemma PairTextInjective(p: Pair, q: Pair)
    requires CleanPairs([p, q]) && PairText(p) == PairText(q)
    ensures p == q
  {
    assert [p, q][0] == p && [p, q][1] == q;
    FirstSeparator(p.key, p.value, q.key, q.value, EQUALS);
  }

  lemma PairTextNoAmpersand(p: Pair)
    requires Clean(p.key) && Clean(p.value)
    ensures AMPERSAND !in PairText(p) && PairText(p) != []
  {
  }

  /** How many pairs a joined query holds shows in its separators. */
  lemma JoinShape(ps: seq<Pair>)
    requires CleanPairs(ps)
    ensures JoinPairs(ps) == [] <==> ps == []
    ensures AMPERSAND in JoinPairs(ps) <==> |ps| > 1
  {
    if |ps| == 1 {
      PairTextNoAmpersand(ps[0]);
    } else if |ps| > 1 {
      assert JoinPairs(ps)[|PairText(ps[0])|] == AMPERSAND;
    }
  }

  lemma {:induction false} JoinInjective(a: seq<Pair>, b: seq<Pair>)
    requires CleanPairs(a) && CleanPairs(b) && JoinPairs(a) == JoinPairs(b)
    ensures a == b
    decreases |a|
  {
    JoinShape(a);
    JoinShape(b);
    if a != [] {
      PairTextNoAmpersand(a[0]);
      PairTextNoAmpersand(b[0]);
      if |a| > 1 {
        FirstSeparator(PairText(a[0]), JoinPairs(a[1..]), PairText(b[0]), JoinPairs(b[1..]), AMPERSAND);
        JoinInjective(a[1..], b[1..]);
        assert a == [a[0]] + a[1..] && b == [b[0]] + b[1..];
      }
      PairTextInjective(a[0], b[0]);
    }
  }

  lemma {:induction false} JoinNoNewline(ps: seq<Pair>)
    requires CleanPairs(ps)
    ensures NEWLINE !in JoinPairs(ps)
    decreases |ps|
  {
    if |ps| == 1 {
      assert Clean(ps[0].key) && Clean(ps[0].value);
    } else if ps != [] {
      assert Clean(ps[0].key) && Clean(ps[0].value);
      JoinNoNewline(ps[1..]);
    }
  }

  // ---------------------------------------------------------------- encoded pairs

  function EncodePair(p: Pair): Pair {
    Pair(Rfc3986QueryEscape(p.key), Rfc3986QueryEscape(p.value))
  }

  function DecodePair(p: Pair): Pair {
    Pair(Decode(p.key), Decode(p.value))
  }

  function EncodePairs(ps: seq<Pair>): seq<Pair> {
    if ps == [] then [] else [EncodePair(ps[0])] + EncodePairs(ps[1..])
  }

  lemma EscapeRoundTrip(s: Bytes)
    ensures Decode(Rfc3986QueryEscape(s)) == s && Clean(Rfc3986QueryEscape(s))
  {
    QueryEscapeIsPercentEncoding(s);
    EncodeRoundTrip(s, {});
    forall b | b in Encode(s, {}) ensures b != AMPERSAND && b != EQUALS && b != NEWLINE {
      EncodeAlphabet(s, {}, b);
    }
  }

  lemma PairRoundTrip(p: Pair)
    ensures DecodePair(EncodePair(p)) == p && Clean(EncodePair(p).key) && Clean(EncodePair(p).value)
  {
    EscapeRoundTrip(p.key);
    EscapeRoundTrip(p.value);
  }

  lemma EncodesTo(p: Pair, q: Pair)
    ensures EncodePair(p) == q <==> q == EncodePair(DecodePair(q)) && p == DecodePair(q)
  {
    PairRoundTrip(p);
  }

  lemma HeadCount(s: seq<Pair>, q: Pair)
    requires s != []
    ensures multiset(s)[q] == (if s[0] == q then 1 else 0) + multiset(s[1..])[q]
  {
    assert s == [s[0]] + s[1..];
  }

  /** How often an encoded pair occurs: as often as what it decodes to. */
  lemma {:induction false} EncodedCount(ps: seq<Pair>, q: Pair)
    ensures multiset(EncodePairs(ps))[q] == if q == EncodePair(DecodePair(q)) then multiset(ps)[DecodePair(q)] else 0
    decreases |ps|
  {
    if ps != [] {
      EncodedCount(ps[1..], q);
      EncodesTo(ps[0], q);
      HeadCount(ps, DecodePair(q));
      HeadCount(EncodePairs(ps), q);
      assert EncodePairs(ps)[1..] == EncodePairs(ps[1..]);
    }
  }

  lemma EncodedAlike(a: seq<Pair>, b: seq<Pair>)
    ensures multiset(EncodePairs(a)) == multiset(EncodePairs(b)) <==> multiset(a) == multiset(b)
  {
    if multiset(a) == multiset(b) {
      forall q ensures multiset(EncodePairs(a))[q] == multiset(EncodePairs(b))[q] {
        EncodedCount(a, q);
        EncodedCount(b, q);
      }
    }
    if multiset(EncodePairs(a)) == multiset(EncodePairs(b)) {
      forall p ensures multiset(a)[p] == multiset(b)[p] {
        PairRoundTrip(p);
        EncodedCount(a, EncodePair(p));
        EncodedCount(b, EncodePair(p));
      }
    }
  }

  lemma CleanWhenEncoded(es: seq<Pair>, ps: seq<Pair>)
    requires multiset(es) == multiset(EncodePairs(ps))
    ensures CleanPairs(es)
  {
    forall i | 0 <= i < |es| ensures Clean(es[i].key) && Clean(es[i].value) {
      assert es[i] in multiset(es);
      EncodedCount(ps, es[i]);
      PairRoundTrip(DecodePair(es[i]));
    }
  }

  // ---------------------------------------------------------------- the sort

  predicate PairAtMost(p: Pair, q: Pair) {
    if p.key == q.key then AtMost(p.value, q.value) else AtMost(p.key, q.key)
  }

  ghost predicate Sorted(ps: seq<Pair>) {
    SortedBy(ps, PairAtMost)
  }

  lemma PairOrder(p: Pair, q: Pair, r: Pair)
    ensures PairAtMost(p, q) || PairAtMost(q, p)
    ensures PairAtMost(p, q) && PairAtMost(q, p) ==> p == q
    ensures PairAtMost(p, q) && PairAtMost(q, r) ==> PairAtMost(p, r)
  {
    AtMostOrder(p.key, q.key, r.key);
    AtMostOrder(q.key, p.key, r.key);
    AtMostOrder(q.key, r.key, p.key);
    AtMostOrder(p.value, q.value, r.value);
  }

  /** Sorted by the escaped key and then by the escaped value, bytewise. */
  lemma SortedMeans(es: seq<Pair>, i: nat, j: nat)
    requires Sorted(es) && i < j < |es|
    ensures exists k :: FirstAt(es[i].key, es[j].key, k)
    ensures es[i].key == es[j].key ==> exists k :: FirstAt(es[i].value, es[j].value, k)
  {
    assert PairAtMost(es[i], es[j]);
    AtMostMeans(es[i].key, es[j].key);
    AtMostMeans(es[i].value, es[j].value);
    if es[i].key == es[j].key {
      assert FirstAt(es[i].key, es[j].key, |es[i].key|);
    }
  }

  lemma PairsAreOrdered()
    ensures Ordering(PairAtMost) && Antisymmetric(PairAtMost)
  {
    forall p, q, r ensures
      && (PairAtMost(p, q) || PairAtMost(q, p))
      && (PairAtMost(p, q) && PairAtMost(q, p) ==> p == q)
      && (PairAtMost(p, q) && PairAtMost(q, r) ==> PairAtMost(p, r))
    {
      PairOrder(p, q, r);
    }
  }

  // ---------------------------------------------------------------- requests

  /** `query` is the parsed query string, or None when it does not parse; `digest` the body's SHA-256. */
  datatype Request = Request(
    verb: Bytes,
    path: Bytes,
    rawPath: Bytes,
    query: Option<map<Bytes, seq<Bytes>>>,
    digest: Bytes)

  function ToUpper(s: Bytes): Bytes {
    seq(|s|, i requires 0 <= i < |s| => if 97 <= s[i] <= 122 then s[i] - 32 else s[i])
  }

  function LowerHex(n: int): Byte
    requires 0 <= n < 16
  {
    if n < 10 then 48 + n else 87 + n
  }

  function HexText(s: Bytes): Bytes {
    if s == [] then [] else [LowerHex(s[0] / 16), LowerHex(s[0] % 16)] + HexText(s[1..])
  }

  function TargetPath(r: Request): Bytes {
    if r.path == [] then [SLASH] else r.path
  }

  function Segments(p: Bytes): seq<Bytes> {
    if p == [] then [[]]
    else
      var rest := Segments(p[1..]);
      if p[0] == SLASH then [[]] + rest
      else if rest == [] then [[p[0]]] else [[p[0]] + rest[0]] + rest[1..]
  }

  /** A rooted path equals its path.Clean: it is the root, or no segment is empty, "." or "..". */
  predicate IsCleanPath(p: Bytes) {
    p != [] && p[0] == SLASH &&
    (p == [SLASH] || forall i :: 0 <= i < |Segments(p[1..])| ==> Segments(p[1..])[i] !in [[], [DOT], [DOT, DOT]])
  }

  predicate HasDoubleSlash(p: Bytes) {
    exists i :: 0 <= i < |p| - 1 && p[i] == SLASH && p[i + 1] == SLASH
  }

  predicate RefusedPath(p: Bytes)
    requires p != []
  {
    p[0] != SLASH || BACKSLASH in p || HasDoubleSlash(p) || !IsCleanPath(p)
  }

  predicate Acceptable(r: Request) {
    var p := TargetPath(r);
    && !RefusedPath(p)
    && (r.rawPath == [] || r.rawPath == Encode(p, PATH_KEEPS))
    && r.query.Some?
  }

  /** A key without values counts as one empty value. */
  function Entries(q: map<Bytes, seq<Bytes>>, k: Bytes): seq<Bytes>
    requires k in q
  {
    if q[k] == [] then [[]] else q[k]
  }

  function Occurrences(q: map<Bytes, seq<Bytes>>, p: Pair): nat {
    if p.key in q then multiset(Entries(q, p.key))[p.value] else 0
  }

  /** The list holds every decoded pair of the query as often as the query does. */
  ghost predicate Lists(q: map<Bytes, seq<Bytes>>, ps: seq<Pair>) {
    forall p :: multiset(ps)[p] == Occurrences(q, p)
  }

  function Assemble(verb: Bytes, path: Bytes, query: Bytes, digest: Bytes): Bytes {
    [118, 49] + [NEWLINE] + verb + [NEWLINE] + path + [NEWLINE] + query + [NEWLINE] + digest
  }

  function Text(r: Request, es: seq<Pair>): Bytes {
    Assemble(ToUpper(r.verb), Encode(TargetPath(r), PATH_KEEPS), JoinPairs(es), HexText(r.digest))
  }

  /** `es` is a sorted encoding of a listing `ps` of the request's query. */
  ghost predicate Arranges(r: Request, ps: seq<Pair>, es: seq<Pair>) {
    r.query.Some? && Lists(r.query.value, ps) && multiset(es) == multiset(EncodePairs(ps)) && Sorted(es)
  }

  /** `text` is a canonical string of the request, for some listing and sorting of its query. */
  ghost predicate Canonicalizes(r: Request, text: Bytes) {
    exists ps, es :: Arranges(r, ps, es) && text == Text(r, es)
  }

  /** Equal, or the same letter in the other case. */
  predicate SameLetter(a: Byte, b: Byte) {
    a == b || (65 <= a <= 90 && b == a + 32) || (65 <= b <= 90 && a == b + 32)
  }

  predicate SameVerb(v: Bytes, w: Bytes) {
    |v| == |w| && forall i :: 0 <= i < |v| ==> SameLetter(v[i], w[i])
  }

  /** Equal, an empty path counting as the root. */
  predicate SamePath(p: Bytes, q: Bytes) {
    p == q || (p == [] && q == [47]) || (p == [47] && q == [])
  }

  /** The same values as often, no value counting as one empty value. */
  predicate SameValues(a: seq<Bytes>, b: seq<Bytes>) {
    multiset(a) == multiset(b) || (a == [] && b == [[]]) || (a == [[]] && b == [])
  }

  ghost predicate SameQuery(q: map<Bytes, seq<Bytes>>, q': map<Bytes, seq<Bytes>>) {
    q.Keys == q'.Keys && forall k :: k in q ==> SameValues(q[k], q'[k])
  }

  /** What an assertion is meant to bind, on the request's own fields. */
  ghost predicate SameRequest(r: Request, s: Request)
    requires r.query.Some? && s.query.Some?
  {
    SameVerb(r.verb, s.verb) && SamePath(r.path, s.path) && SameQuery(r.query.value, s.query.value)
      && r.digest == s.digest
  }

  lemma UpperAlike(v: Bytes, w: Bytes)
    ensures ToUpper(v) == ToUpper(w) <==> SameVerb(v, w)
  {
    if ToUpper(v) == ToUpper(w) {
      assert |v| == |ToUpper(v)| == |ToUpper(w)| == |w|;
      forall i | 0 <= i < |v| ensures SameLetter(v[i], w[i]) {
        assert ToUpper(v)[i] == ToUpper(w)[i];
      }
    }
    if SameVerb(v, w) {
      forall i | 0 <= i < |v| ensures ToUpper(v)[i] == ToUpper(w)[i] {
        assert SameLetter(v[i], w[i]);
      }
    }
  }

  lemma EntriesAlike(a: seq<Bytes>, b: seq<Bytes>)
    ensures multiset(if a == [] then [[]] else a) == multiset(if b == [] then [[]] else b) <==> SameValues(a, b)
  {
    var x: seq<Bytes>, y: seq<Bytes> := if a == [] then [[]] else a, if b == [] then [[]] else b;
    assert |multiset(x)| == |x| && |multiset(y)| == |y| && |multiset(a)| == |a| && |multiset(b)| == |b|;
    if multiset(x) == multiset(y) && (a == [] || b == []) {
      assert x[0] in multiset(y) && y[0] in multiset(x);
      assert |x| == 1 && |y| == 1 && x[0] == y[0];
      assert a == [] || a == [[]];
      assert b == [] || b == [[]];
    }
  }

  lemma EntriesOccur(q: map<Bytes, seq<Bytes>>, k: Bytes)
    requires k in q
    ensures exists v :: Occurrences(q, Pair(k, v)) > 0
  {
    var v := Entries(q, k)[0];
    assert v in multiset(Entries(q, k));
    assert Occurrences(q, Pair(k, v)) > 0;
  }

  lemma OccurrencesAlike(q: map<Bytes, seq<Bytes>>, q': map<Bytes, seq<Bytes>>)
    ensures (forall p :: Occurrences(q, p) == Occurrences(q', p)) <==> SameQuery(q, q')
  {
    if forall p :: Occurrences(q, p) == Occurrences(q', p) {
      forall k ensures k in q <==> k in q' {
        if k in q {
          EntriesOccur(q, k);
        }
        if k in q' {
          EntriesOccur(q', k);
        }
      }
      forall k | k in q ensures SameValues(q[k], q'[k]) {
        forall v ensures multiset(Entries(q, k))[v] == multiset(Entries(q', k))[v] {
          assert Occurrences(q, Pair(k, v)) == Occurrences(q', Pair(k, v));
        }
        assert multiset(Entries(q, k)) == multiset(Entries(q', k));
        EntriesAlike(q[k], q'[k]);
      }
    }
    if SameQuery(q, q') {
      forall p ensures Occurrences(q, p) == Occurrences(q', p) {
        if p.key in q {
          EntriesAlike(q[p.key], q'[p.key]);
        }
      }
    }
  }

  /** The same, through the functions the text is built with. */
  ghost predicate SameParts(r: Request, s: Request)
    requires r.query.Some? && s.query.Some?
  {
    && ToUpper(r.verb) == ToUpper(s.verb)
    && TargetPath(r) == TargetPath(s)
    && (forall p :: Occurrences(r.query.value, p) == Occurrences(s.query.value, p))
    && r.digest == s.digest
  }

  lemma SamePartsIff(r: Request, s: Request)
    requires r.query.Some? && s.query.Some?
    ensures SameParts(r, s) <==> SameRequest(r, s)
  {
    UpperAlike(r.verb, s.verb);
    OccurrencesAlike(r.query.value, s.query.value);
  }

  lemma {:induction false} HexTextInjective(a: Bytes, b: Bytes)
    requires HexText(a) == HexText(b)
    ensures a == b
    decreases |a|
  {
    if a != [] && b != [] {
      var x, y := HexText(a), HexText(b);
      assert x[0] == y[0] && x[1] == y[1];
      assert x[2..] == HexText(a[1..]) && y[2..] == HexText(b[1..]);
      HexTextInjective(a[1..], b[1..]);
      assert a == [a[0]] + a[1..] && b == [b[0]] + b[1..];
    }
  }

  lemma {:induction false} HexTextNoNewline(s: Bytes)
    ensures NEWLINE !in HexText(s)
    decreases |s|
  {
    if s != [] {
      HexTextNoNewline(s[1..]);
    }
  }

  lemma PathEncodingInjective(a: Bytes, b: Bytes)
    ensures NEWLINE !in Encode(a, PATH_KEEPS)
    ensures Encode(a, PATH_KEEPS) == Encode(b, PATH_KEEPS) ==> a == b
  {
    EncodeRoundTrip(a, PATH_KEEPS);
    EncodeRoundTrip(b, PATH_KEEPS);
    if NEWLINE in Encode(a, PATH_KEEPS) {
      EncodeAlphabet(a, PATH_KEEPS, NEWLINE);
    }
  }

  /** The five lines can be told apart from the right: only the verb may contain a newline. */
  lemma AssembleInjective(v: Bytes, p: Bytes, q: Bytes, d: Bytes, v': Bytes, p': Bytes, q': Bytes, d': Bytes)
    requires Assemble(v, p, q, d) == Assemble(v', p', q', d')
    requires NEWLINE !in p + q + d && NEWLINE !in p' + q' + d'
    ensures v == v' && p == p' && q == q' && d == d'
  {
    var front, front' := [118, 49] + [NEWLINE] + v, [118, 49] + [NEWLINE] + v';
    var most, most' := front + [NEWLINE] + p, front' + [NEWLINE] + p';
    LastSeparator(most + [NEWLINE] + q, d, most' + [NEWLINE] + q', d', NEWLINE);
    LastSeparator(most, q, most', q', NEWLINE);
    LastSeparator(front, p, front', p', NEWLINE);
    assert front[3..] == v && front'[3..] == v';
  }

  lemma TextInjective(r: Request, s: Request, es: seq<Pair>, fs: seq<Pair>)
    requires CleanPairs(es) && CleanPairs(fs) && Text(r, es) == Text(s, fs)
    ensures ToUpper(r.verb) == ToUpper(s.verb) && TargetPath(r) == TargetPath(s) && es == fs && r.digest == s.digest
  {
    PathEncodingInjective(TargetPath(r), TargetPath(s));
    PathEncodingInjective(TargetPath(s), TargetPath(r));
    JoinNoNewline(es);
    JoinNoNewline(fs);
    HexTextNoNewline(r.digest);
    HexTextNoNewline(s.digest);
    AssembleInjective(ToUpper(r.verb), Encode(TargetPath(r), PATH_KEEPS), JoinPairs(es), HexText(r.digest),
                      ToUpper(s.verb), Encode(TargetPath(s), PATH_KEEPS), JoinPairs(fs), HexText(s.digest));
    JoinInjective(es, fs);
    HexTextInjective(r.digest, s.digest);
  }

  lemma ListedAlike(q: map<Bytes, seq<Bytes>>, q': map<Bytes, seq<Bytes>>, ps: seq<Pair>, qs: seq<Pair>)
    requires Lists(q, ps) && Lists(q', qs)
    ensures multiset(ps) == multiset(qs) <==> forall p :: Occurrences(q, p) == Occurrences(q', p)
  {
    if multiset(ps) == multiset(qs) {
      forall p ensures Occurrences(q, p) == Occurrences(q', p) {
        assert multiset(ps)[p] == multiset(qs)[p];
      }
    }
    if forall p :: Occurrences(q, p) == Occurrences(q', p) {
      forall p ensures multiset(ps)[p] == multiset(qs)[p] {
        assert Occurrences(q, p) == Occurrences(q', p);
      }
    }
  }

  lemma SameTextSameRequest(r: Request, s: Request, ps: seq<Pair>, es: seq<Pair>, qs: seq<Pair>, fs: seq<Pair>)
    requires Arranges(r, ps, es) && Arranges(s, qs, fs) && Text(r, es) == Text(s, fs)
    ensures SameParts(r, s)
  {
    CleanWhenEncoded(es, ps);
    CleanWhenEncoded(fs, qs);
    TextInjective(r, s, es, fs);
    EncodedAlike(ps, qs);
    ListedAlike(r.query.value, s.query.value, ps, qs);
  }

  lemma SameRequestSameText(r: Request, s: Request, ps: seq<Pair>, es: seq<Pair>, qs: seq<Pair>, fs: seq<Pair>)
    requires Arranges(r, ps, es) && Arranges(s, qs, fs) && SameParts(r, s)
    ensures Text(r, es) == Text(s, fs)
  {
    ListedAlike(r.query.value, s.query.value, ps, qs);
    EncodedAlike(ps, qs);
    PairsAreOrdered();
    SortedUnique(es, fs, PairAtMost);
  }

  /**
    Main result: two requests have the same canonical string if and only if they agree on the
    upper-cased method, the decoded path, the multiset of decoded query pairs and the digest.
    With r == s this says that the string does not depend on the order of the query.
   */
  lemma CanonicalIffSameRequest(r: Request, s: Request, text: Bytes, text': Bytes)
    requires Canonicalizes(r, text) && Canonicalizes(s, text')
    ensures text == text' <==> SameRequest(r, s)
  {
    var ps, es :| Arranges(r, ps, es) && text == Text(r, es);
    var qs, fs :| Arranges(s, qs, fs) && text' == Text(s, fs);
    SamePartsIff(r, s);
    if text == text' {
      SameTextSameRequest(r, s, ps, es, qs, fs);
    }
    if SameRequest(r, s) {
      SameRequestSameText(r, s, ps, es, qs, fs);
    }
  }

  // ---------------------------------------------------------------- what the text says

  function HexDigit(b: Byte): int {
    if 48 <= b <= 57 then b - 48 else if 97 <= b <= 102 then b - 87 else 0
  }

  /** Reading lower-case hexadecimal, two digits a byte. */
  function ReadHex(s: Bytes): Bytes {
    if |s| < 2 then [] else [HexDigit(s[0]) * 16 + HexDigit(s[1])] + ReadHex(s[2..])
  }

  lemma {:induction false} HexRoundTrip(s: Bytes)
    ensures ReadHex(HexText(s)) == s
    decreases |s|
  {
    if s != [] {
      HexRoundTrip(s[1..]);
      var text := HexText(s);
      assert text[2..] == HexText(s[1..]);
      var b := s[0];
      assert HexDigit(text[0]) == b / 16 && HexDigit(text[1]) == b % 16;
      assert s == [b] + s[1..];
    }
  }

  /** Splitting the query text at the first separator. */
  ghost predicate Splits(text: Bytes, first: Bytes, sep: Byte, rest: Bytes) {
    text == first + [sep] + rest && sep !in first
  }

  /** The query text read back: pairs between ampersands, key and value around an equals sign, both decoded. */
  ghost predicate ReadsAs(text: Bytes, pairs: seq<Pair>)
    decreases |pairs|
  {
    if pairs == [] then text == []
    else if |pairs| == 1 then ReadsAsPair(text, pairs[0])
    else exists first, rest :: (&& Splits(text, first, 38, rest) && ReadsAsPair(first, pairs[0])
                                && ReadsAs(rest, pairs[1..]))
  }

  ghost predicate ReadsAsPair(text: Bytes, p: Pair) {
    exists key, value :: Splits(text, key, 61, value) && Decode(key) == p.key && Decode(value) == p.value
  }

  function DecodePairs(es: seq<Pair>): seq<Pair> {
    if es == [] then [] else [DecodePair(es[0])] + DecodePairs(es[1..])
  }

  lemma {:induction false} JoinReadsAs(es: seq<Pair>)
    requires CleanPairs(es)
    ensures ReadsAs(JoinPairs(es), DecodePairs(es)) && |DecodePairs(es)| == |es|
    decreases |es|
  {
    if es != [] {
      var e, rest := es[0], es[1..];
      JoinReadsAs(rest);
      assert Splits(PairText(e), e.key, 61, e.value);
      assert ReadsAsPair(PairText(e), DecodePair(e));
      assert DecodePairs(es)[1..] == DecodePairs(rest);
      if |es| > 1 {
        PairTextNoAmpersand(e);
        assert Splits(JoinPairs(es), PairText(e), 38, JoinPairs(rest));
      }
    }
  }

  lemma {:induction false} DecodedCountOf(es: seq<Pair>, p: Pair)
    requires forall i :: 0 <= i < |es| ==> es[i] == EncodePair(DecodePair(es[i]))
    ensures multiset(DecodePairs(es))[p] == multiset(es)[EncodePair(p)]
    decreases |es|
  {
    if es != [] {
      DecodedCountOf(es[1..], p);
      HeadCount(es, EncodePair(p));
      HeadCount(DecodePairs(es), p);
      assert DecodePairs(es)[1..] == DecodePairs(es[1..]);
      PairRoundTrip(p);
    }
  }

  lemma DecodedCount(es: seq<Pair>, ps: seq<Pair>)
    requires multiset(es) == multiset(EncodePairs(ps))
    ensures multiset(DecodePairs(es)) == multiset(ps)
  {
    forall i | 0 <= i < |es| ensures es[i] == EncodePair(DecodePair(es[i])) {
      assert es[i] in multiset(es);
      EncodedCount(ps, es[i]);
    }
    forall p ensures multiset(DecodePairs(es))[p] == multiset(ps)[p] {
      DecodedCountOf(es, p);
      EncodedCount(ps, EncodePair(p));
      PairRoundTrip(p);
    }
  }

  /** The five lines of a text, without reference to how it was put together. */
  ghost predicate Lines(text: Bytes, verb: Bytes, path: Bytes, query: Bytes, digest: Bytes) {
    text == [118, 49, 10] + verb + [10] + path + [10] + query + [10] + digest
  }

  /** How often a query holds a pair; a key without values holds one empty value. */
  function Holds(q: map<Bytes, seq<Bytes>>, p: Pair): nat {
    if p.key !in q then 0
    else if q[p.key] == [] then (if p.value == [] then 1 else 0)
    else multiset(q[p.key])[p.value]
  }

  ghost predicate SaysVerb(verb: Bytes, v: Bytes) {
    SameVerb(verb, v) && forall i :: 0 <= i < |verb| ==> !(97 <= verb[i] <= 122)
  }

  ghost predicate SaysPath(path: Bytes, p: Bytes) {
    10 !in path && Decode(path) == if p == [] then [47] else p
  }

  ghost predicate SaysQuery(query: Bytes, q: map<Bytes, seq<Bytes>>) {
    10 !in query && exists pairs :: ReadsAs(query, pairs) && forall p :: multiset(pairs)[p] == Holds(q, p)
  }

  ghost predicate SaysDigest(digest: Bytes, d: Bytes) {
    10 !in digest && ReadHex(digest) == d
  }

  lemma QuerySays(q: map<Bytes, seq<Bytes>>, ps: seq<Pair>, es: seq<Pair>)
    requires Lists(q, ps) && multiset(es) == multiset(EncodePairs(ps))
    ensures SaysQuery(JoinPairs(es), q)
  {
    CleanWhenEncoded(es, ps);
    JoinNoNewline(es);
    JoinReadsAs(es);
    DecodedCount(es, ps);
    forall p ensures multiset(DecodePairs(es))[p] == Holds(q, p) {
      assert multiset(ps)[p] == Occurrences(q, p);
    }
  }

  lemma VerbSays(v: Bytes)
    ensures SaysVerb(ToUpper(v), v)
  {
  }

  lemma PathSays(r: Request)
    ensures SaysPath(Encode(TargetPath(r), PATH_KEEPS), r.path)
  {
    PathEncodingInjective(TargetPath(r), TargetPath(r));
    EncodeRoundTrip(TargetPath(r), PATH_KEEPS);
  }

  lemma DigestSays(d: Bytes)
    ensures SaysDigest(HexText(d), d)
  {
    HexTextNoNewline(d);
    HexRoundTrip(d);
  }

  lemma AssembleLines(verb: Bytes, path: Bytes, query: Bytes, digest: Bytes)
    ensures Lines(Assemble(verb, path, query, digest), verb, path, query, digest)
  {
    assert [118, 49] + [NEWLINE] == [118, 49, 10];
  }

  /** Main result: a canonical string, read line by line, gives the request back. */
  lemma CanonicalSays(r: Request, text: Bytes) returns (verb: Bytes, path: Bytes, query: Bytes, digest: Bytes)
    requires Canonicalizes(r, text)
    ensures Lines(text, verb, path, query, digest)
    ensures SaysVerb(verb, r.verb) && SaysPath(path, r.path) && SaysDigest(digest, r.digest)
    ensures r.query.Some? && SaysQuery(query, r.query.value)
  {
    var ps, es :| Arranges(r, ps, es) && text == Text(r, es);
    verb, path, query, digest := ToUpper(r.verb), Encode(TargetPath(r), PATH_KEEPS), JoinPairs(es), HexText(r.digest);
    AssembleLines(verb, path, query, digest);
    VerbSays(r.verb);
    PathSays(r);
    QuerySays(r.query.value, ps, es);
    DigestSays(r.digest);
  }

  // ---------------------------------------------------------------- what is refused

  /** A stretch between two slashes, or between the last slash and the end. */
  ghost predicate Stretch(p: Bytes, i: int, j: int) {
    0 <= i < j <= |p| && p[i] == 47 && (j == |p| || p[j] == 47) && forall k :: i < k < j ==> p[k] != 47
  }

  /** A path in its plain form, on its bytes: rooted, no backslash, no empty stretch and none of dots. */
  ghost predicate PlainPath(p: Bytes) {
    && p != [] && p[0] == 47 && 92 !in p
    && (p == [47] || forall i, j :: Stretch(p, i, j) ==> p[i + 1..j] !in [[], [46], [46, 46]])
  }

  /** A stretch of what follows the root slash. */
  ghost predicate Between(q: Bytes, i: int, j: int) {
    && 0 <= i <= j <= |q| && (i == 0 || q[i - 1] == SLASH) && (j == |q| || q[j] == SLASH)
    && forall x :: i <= x < j ==> q[x] != SLASH
  }

  lemma TailSlice(q: Bytes, a: nat, b: nat)
    requires a <= b < |q|
    ensures q[a + 1..b + 1] == q[1..][a..b] && q[..b + 1] == [q[0]] + q[1..][..b]
  {
  }

  lemma TailBetween(q: Bytes, a: nat, b: nat)
    requires q != [] && a <= b < |q| && (a > 0 || q[0] == SLASH)
    ensures Between(q[1..], a, b) <==> Between(q, a + 1, b + 1)
  {
    if Between(q, a + 1, b + 1) {
      forall x | a <= x < b ensures q[1..][x] != SLASH {
        assert q[x + 1] != SLASH;
      }
    }
  }

  lemma {:induction false} SegmentIsBetween(q: Bytes, k: nat) returns (i: nat, j: nat)
    requires k < |Segments(q)|
    ensures Between(q, i, j) && q[i..j] == Segments(q)[k] && (k == 0 <==> i == 0)
    decreases |q|
  {
    i, j := 0, 0;
    if q != [] && q[0] == SLASH {
      if k > 0 {
        var a, b := SegmentIsBetween(q[1..], k - 1);
        i, j := a + 1, b + 1;
        TailSlice(q, a, b);
        TailBetween(q, a, b);
        assert Segments(q)[k] == Segments(q[1..])[k - 1];
      }
    } else if q != [] {
      SegmentsSome(q[1..]);
      var a, b := SegmentIsBetween(q[1..], k);
      i, j := if k == 0 then 0 else a + 1, b + 1;
      TailSlice(q, a, b);
      if k > 0 {
        TailBetween(q, a, b);
      }
    }
  }

  lemma {:induction false} SegmentsSome(q: Bytes)
    ensures Segments(q) != []
    decreases |q|
  {
    if q != [] {
      SegmentsSome(q[1..]);
    }
  }

  lemma {:induction false} FirstSegment(q: Bytes, j: nat)
    requires Between(q, 0, j)
    ensures Segments(q) != [] && Segments(q)[0] == q[..j]
    decreases |q|
  {
    if q != [] && q[0] != SLASH {
      assert j > 0;
      forall x | 0 <= x < j - 1 ensures q[1..][x] != SLASH {
        assert q[x + 1] != SLASH;
      }
      FirstSegment(q[1..], j - 1);
      TailSlice(q, 0, j - 1);
    }
  }

  lemma SegmentAfterSlash(q: Bytes, k: nat)
    requires q != [] && q[0] == SLASH && k < |Segments(q[1..])|
    ensures k + 1 < |Segments(q)| && Segments(q)[k + 1] == Segments(q[1..])[k]
  {
  }

  lemma SegmentAfterOther(q: Bytes, k: nat)
    requires q != [] && q[0] != SLASH && 0 < k < |Segments(q[1..])|
    ensures k < |Segments(q)| && Segments(q)[k] == Segments(q[1..])[k]
  {
  }

  lemma {:induction false} LaterSegment(q: Bytes, i: nat, j: nat) returns (k: nat)
    requires 0 < i && Between(q, i, j)
    ensures 0 < k < |Segments(q)| && q[i..j] == Segments(q)[k]
    decreases |q|
  {
    TailSlice(q, i - 1, j - 1);
    TailBetween(q, i - 1, j - 1);
    if q[0] == SLASH && i == 1 {
      FirstSegment(q[1..], j - 1);
      SegmentAfterSlash(q, 0);
      k := 1;
    } else {
      var m := LaterSegment(q[1..], i - 1, j - 1);
      if q[0] == SLASH {
        SegmentAfterSlash(q, m);
        k := m + 1;
      } else {
        SegmentAfterOther(q, m);
        k := m;
      }
    }
  }

  lemma BetweenIsSegment(q: Bytes, i: nat, j: nat) returns (k: nat)
    requires Between(q, i, j)
    ensures k < |Segments(q)| && q[i..j] == Segments(q)[k]
  {
    if i == 0 {
      FirstSegment(q, j);
      k := 0;
    } else {
      k := LaterSegment(q, i, j);
    }
  }

  lemma StretchIsBetween(p: Bytes, i: nat, j: nat)
    requires p != [] && p[0] == SLASH && i <= j < |p|
    ensures Stretch(p, i, j + 1) <==> Between(p[1..], i, j)
    ensures p[1..][i..j] == p[i + 1..j + 1]
  {
    var q := p[1..];
    assert forall x :: 0 <= x < |q| ==> q[x] == p[x + 1];
    if Stretch(p, i, j + 1) {
      forall x | i <= x < j ensures q[x] != SLASH {
        assert p[x + 1] != SLASH;
      }
    }
    if Between(q, i, j) {
      forall x | i < x < j + 1 ensures p[x] != SLASH {
        assert q[x - 1] != SLASH;
      }
    }
  }

  /** Cleaning leaves a rooted path alone if and only if no stretch of it is empty or made of one or two dots. */
  lemma CleanIffNoDots(p: Bytes)
    requires p != [] && p[0] == SLASH && p != [SLASH]
    ensures IsCleanPath(p) <==> forall i, j :: Stretch(p, i, j) ==> p[i + 1..j] !in [[], [46], [46, 46]]
  {
    var q := p[1..];
    if IsCleanPath(p) {
      forall i, j | Stretch(p, i, j) ensures p[i + 1..j] !in [[], [46], [46, 46]] {
        StretchIsBetween(p, i, j - 1);
        var k := BetweenIsSegment(q, i, j - 1);
      }
    } else {
      var k :| 0 <= k < |Segments(q)| && Segments(q)[k] in [[], [DOT], [DOT, DOT]];
      var i, j := SegmentIsBetween(q, k);
      StretchIsBetween(p, i, j);
    }
  }

  lemma RefusedIffNotPlain(p: Bytes)
    requires p != []
    ensures RefusedPath(p) <==> !PlainPath(p)
  {
    if p[0] == SLASH && p != [SLASH] {
      CleanIffNoDots(p);
      forall i | 0 <= i < |p| - 1 && p[i] == SLASH && p[i + 1] == SLASH
        ensures p[i + 1..i + 1] == [] && Stretch(p, i, i + 1)
      {
      }
    }
  }

  /** Main result: exactly which requests have a canonical string. */
  lemma AcceptableIff(r: Request)
    ensures Acceptable(r) <==>
              && r.query.Some? && (r.path == [] || PlainPath(r.path))
              && (r.rawPath == [] || r.rawPath == Encode(if r.path == [] then [47] else r.path, PATH_KEEPS))
  {
    RefusedIffNotPlain(TargetPath(r));
  }

  function KeyPairs(key: Bytes, entries: seq<Bytes>): seq<Pair> {
    seq(|entries|, i requires 0 <= i < |entries| => Pair(key, entries[i]))
  }

  lemma {:induction false} KeyPairsCount(key: Bytes, entries: seq<Bytes>, p: Pair)
    ensures multiset(KeyPairs(key, entries))[p] == if p.key == key then multiset(entries)[p.value] else 0
    decreases |entries|
  {
    if entries != [] {
      var n := |entries| - 1;
      KeyPairsCount(key, entries[..n], p);
      assert entries == entries[..n] + [entries[n]];
      assert KeyPairs(key, entries) == KeyPairs(key, entries[..n]) + [Pair(key, entries[n])];
    }
  }

  /** The inner loop: one key's values, escaped and appended. */
  method AppendEntries(key: Bytes, entries: seq<Bytes>, pairs: seq<Pair>, ghost plain: seq<Pair>)
    returns (more: seq<Pair>)
    requires pairs == EncodePairs(plain)
    ensures more == EncodePairs(plain + KeyPairs(key, entries))
  {
    more := pairs;
    assert plain + KeyPairs(key, []) == plain;
    for i := 0 to |entries|
      invariant more == EncodePairs(plain + KeyPairs(key, entries[..i]))
    {
      ghost var listed, next := plain + KeyPairs(key, entries[..i]), Pair(key, entries[i]);
      EncodePairsAppend(listed, next);
      more := more + [Pair(Rfc3986QueryEscape(key), Rfc3986QueryEscape(entries[i]))];
      assert KeyPairs(key, entries[..i + 1]) == KeyPairs(key, entries[..i]) + [next];
      assert plain + KeyPairs(key, entries[..i + 1]) == listed + [next];
    }
    assert entries[..|entries|] == entries;
  }

  /** The outer loop: the query's map is visited in an arbitrary order. */
  method CollectPairs(q: map<Bytes, seq<Bytes>>) returns (pairs: seq<Pair>)
    ensures exists plain :: pairs == EncodePairs(plain) && Lists(q, plain)
  {
    pairs := [];
    ghost var plain: seq<Pair> := [];
    var keys := q.Keys;
    while exists k :: k in keys
      invariant keys <= q.Keys && pairs == EncodePairs(plain)
      invariant forall p :: multiset(plain)[p] == if p.key in keys then 0 else Occurrences(q, p)
      decreases keys
    {
      var key :| key in keys;
      pairs := AppendEntries(key, Entries(q, key), pairs, plain);
      plain := plain + KeyPairs(key, Entries(q, key));
      var entries := Entries(q, key);
      forall p ensures multiset(KeyPairs(key, entries))[p] == if p.key == key then multiset(entries)[p.value] else 0 {
        KeyPairsCount(key, entries, p);
      }
      keys := keys - {key};
    }
  }

  /** The canonicalization as written, with its three ways to refuse a request. */
  method Canonicalize(r: Request) returns (text: Option<Bytes>)
    ensures text.Some? <==> Acceptable(r)
    ensures text.Some? ==> Canonicalizes(r, text.value)
  {
    var path := TargetPath(r);
    if RefusedPath(path) {
      return None;
    }
    var canonicalPath := Encode(path, PATH_KEEPS);
    if r.rawPath != [] && r.rawPath != canonicalPath {
      return None;
    }
    if r.query.None? {
      return None;
    }
    var pairs := CollectPairs(r.query.value);
    ghost var plain :| pairs == EncodePairs(plain) && Lists(r.query.value, plain);
    PairsAreOrdered();
    var sorted := Sort(pairs, PairAtMost);
    text := Some(Assemble(ToUpper(r.verb), canonicalPath, JoinPairs(sorted), HexText(r.digest)));
    assert Canonicalizes(r, text.value) by {
      assert Arranges(r, plain, sorted);
      assert text.value == Text(r, sorted);
    }
  }

  lemma {:induction false} EncodePairsAppend(ps: seq<Pair>, p: Pair)
    ensures EncodePairs(ps + [p]) == EncodePairs(ps) + [EncodePair(p)]
    decreases |ps|
  {
    if ps == [] {
      assert ps + [p] == [p] && [p][1..] == [];
    } else {
      assert (ps + [p])[1..] == ps[1..] + [p];
      EncodePairsAppend(ps[1..], p);
    }
  }
}
