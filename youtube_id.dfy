/**
 * `extractVideoId`: the video identifier in a submitted URL.
 *
 * The source tries two regular expressions in order and returns capture
 * group 1 of the first that matches:
 *   1. `(?:youtube\.com\/(?:[^\/]+\/.+\/|(?:v|e(?:mbed)?)\/|.*[?&]v=)|youtu\.be\/)([^"&?\/\s]{11})`
 *      with the `i` flag, unanchored;
 *   2. `^[a-zA-Z0-9_-]{11}$`, which has no capture group.
 * Pattern 1 is modelled structurally, the way a backtracking matcher runs it:
 * start positions are tried from the left, the alternatives in their written
 * order, and the greedy `.+` and `.*` take the longest run that still lets the
 * rest match.
 */
module YoutubeId {
  import opened Wrappers

  /** What `url.match(pattern)[1]` yields for the first pattern that matches. */
  datatype Extracted =
    | Id(id: string)    // pattern 1 matched: its capture group
    | NoMatch           // no pattern matched: `null`
    | NoCaptureGroup    // pattern 2 matched: `match[1]` is `undefined`

  const IdLength: nat := 11

  /** `\s` of JavaScript regular expressions. */
  predicate IsWhitespace(c: char) {
    c == ' ' || c == '\t' || c == '\n' || c == '\U{B}' || c == '\U{C}' || c == '\r'
    || c == '\U{A0}' || c == '\U{1680}' || ('\U{2000}' <= c <= '\U{200A}')
    || c == '\U{2028}' || c == '\U{2029}' || c == '\U{202F}' || c == '\U{205F}'
    || c == '\U{3000}' || c == '\U{FEFF}'
  }

  /** The characters `.` does not match. */
  predicate IsLineTerminator(c: char) {
    c == '\n' || c == '\r' || c == '\U{2028}' || c == '\U{2029}'
  }

  /** `[^"&?\/\s]`: a character an extracted id may contain. */
  predicate IsIdChar(c: char) {
    c != '"' && c != '&' && c != '?' && c != '/' && !IsWhitespace(c)
  }

  /** `[a-zA-Z0-9_-]`: a character of a bare id (pattern 2). */
  predicate IsBareIdChar(c: char) {
    ('a' <= c <= 'z') || ('A' <= c <= 'Z') || ('0' <= c <= '9') || c == '_' || c == '-'
  }

  /**
   * `c` matches the pattern character `l` (an ASCII lower-case letter or a
   * non-letter) under the `i` flag, which folds no other character onto an
   * ASCII letter.
   */
  predicate SameIgnoringCase(c: char, l: char) {
    c == l || ('a' <= l <= 'z' && c as int == l as int - 32)
  }

  /** `lit` occurs at position `i` of `s`, ignoring ASCII case. */
  predicate LiteralAt(s: string, i: nat, lit: string) {
    i + |lit| <= |s| && forall j :: 0 <= j < |lit| ==> SameIgnoringCase(s[i + j], lit[j])
  }

  /** `([^"&?\/\s]{11})` matches at position `k`. */
  predicate IdAt(s: string, k: nat) {
    k + IdLength <= |s| && forall j :: k <= j < k + IdLength ==> IsIdChar(s[j])
  }

  /**
   * The prefix in front of a capture: a match of pattern 1 that starts at
   * `start` and captures at `at` begins with `youtube.com/` followed by at least
   * nothing, or is `youtu.be/` immediately followed by the id.
   */
  predicate HostBefore(s: string, start: nat, at: nat) {
    (LiteralAt(s, start, "youtube.com/") && start + 12 <= at)
    || (LiteralAt(s, start, "youtu.be/") && at == start + 9)
  }

  /** The first `/` at or after `p`, or `|s|` if there is none. */
  function SlashFrom(s: string, p: nat): (r: nat)
    requires p <= |s|
    ensures p <= r <= |s|
    ensures r < |s| ==> s[r] == '/'
    ensures forall q :: p <= q < r ==> s[q] != '/'
    decreases |s| - p
  {
    if p == |s| || s[p] == '/' then p else SlashFrom(s, p + 1)
  }

  /** The first line terminator at or after `p`, or `|s|`: where a greedy `.*` stops. */
  function LineEndFrom(s: string, p: nat): (r: nat)
    requires p <= |s|
    ensures p <= r <= |s|
    ensures r < |s| ==> IsLineTerminator(s[r])
    ensures forall q :: p <= q < r ==> !IsLineTerminator(s[q])
    decreases |s| - p
  {
    if p == |s| || IsLineTerminator(s[p]) then p else LineEndFrom(s, p + 1)
  }

  /** The two places a greedy run backs off to: `\/` before the id, or `[?&]v=` before it. */
  datatype Probe = SlashThenId | QueryThenId

  predicate ProbeAt(s: string, k: nat, probe: Probe) {
    k < |s| &&
    match probe
    case SlashThenId => s[k] == '/' && IdAt(s, k + 1)
    case QueryThenId => (s[k] == '?' || s[k] == '&') && LiteralAt(s, k + 1, "v=") && IdAt(s, k + 3)
  }

  /**
   * The largest `k` in `[lo, hi)` at which the probe succeeds: a greedy run
   * ending at `hi` gives back one character at a time until what follows matches.
   */
  function LastProbe(s: string, lo: nat, hi: nat, probe: Probe): (r: Option<nat>)
    requires hi <= |s|
    ensures r.Some? ==> lo <= r.value < hi && ProbeAt(s, r.value, probe)
    ensures r.Some? ==> forall k :: r.value < k < hi ==> !ProbeAt(s, k, probe)
    ensures r.None? ==> forall k :: lo <= k < hi ==> !ProbeAt(s, k, probe)
    decreases hi
  {
    if hi <= lo then None
    else if ProbeAt(s, hi - 1, probe) then Some(hi - 1)
    else LastProbe(s, lo, hi - 1, probe)
  }

  /** `[^\/]+\/.+\/` then the id, right after `youtube.com/` at `p`. */
  function PathAlternative(s: string, p: nat): (r: Option<nat>)
    requires p <= |s|
    ensures r.Some? ==> p < r.value && IdAt(s, r.value)
  {
    var j := SlashFrom(s, p);
    if j == p || j == |s| then None
    else
      var e := LineEndFrom(s, j + 1);
      match LastProbe(s, j + 2, e, SlashThenId)
      case Some(k) => Some(k + 1)
      case None => None
  }

  /** `(?:v|e(?:mbed)?)\/` then the id, right after `youtube.com/` at `p`. */
  function EmbedAlternative(s: string, p: nat): (r: Option<nat>)
    ensures r.Some? ==> p < r.value && IdAt(s, r.value)
  {
    if LiteralAt(s, p, "v/") && IdAt(s, p + 2) then Some(p + 2)
    else if LiteralAt(s, p, "embed/") && IdAt(s, p + 6) then Some(p + 6)
    else if LiteralAt(s, p, "e/") && IdAt(s, p + 2) then Some(p + 2)
    else None
  }

  /** `.*[?&]v=` then the id, right after `youtube.com/` at `p`. */
  function QueryAlternative(s: string, p: nat): (r: Option<nat>)
    requires p <= |s|
    ensures r.Some? ==> p < r.value && IdAt(s, r.value)
  {
    match LastProbe(s, p, LineEndFrom(s, p), QueryThenId)
    case Some(k) => Some(k + 3)
    case None => None
  }

  /** Where pattern 1, started at `i`, captures the id, if it matches there. */
  function CaptureAt(s: string, i: nat): (r: Option<nat>)
    requires i <= |s|
    ensures r.Some? ==> IdAt(s, r.value) && HostBefore(s, i, r.value)
  {
    if LiteralAt(s, i, "youtube.com/") then
      var p := i + 12;
      var a := PathAlternative(s, p);
      if a.Some? then a
      else
        var b := EmbedAlternative(s, p);
        if b.Some? then b else QueryAlternative(s, p)
    else if LiteralAt(s, i, "youtu.be/") && IdAt(s, i + 9) then Some(i + 9)
    else None
  }

  /** A match of pattern 1: where it starts and where its capture group starts. */
  datatype Capture = Capture(start: nat, at: nat)

  /** What pattern 1 does at each start position `0..|s|`. */
  function Attempts(s: string): (r: seq<Option<nat>>)
    ensures |r| == |s| + 1 && forall i :: 0 <= i <= |s| ==> r[i] == CaptureAt(s, i)
  {
    seq(|s| + 1, i requires 0 <= i <= |s| => CaptureAt(s, i))
  }

  /** The leftmost successful attempt at position `i` or later. */
  function Leftmost(attempts: seq<Option<nat>>, i: nat): (r: Option<Capture>)
    requires i <= |attempts|
    ensures r.Some? ==> i <= r.value.start < |attempts| && attempts[r.value.start] == Some(r.value.at)
    ensures r.Some? ==> forall j :: i <= j < r.value.start ==> attempts[j].None?
    ensures r.None? ==> forall j :: i <= j < |attempts| ==> attempts[j].None?
    decreases |attempts| - i
  {
    if i == |attempts| then None
    else if attempts[i].Some? then Some(Capture(i, attempts[i].value))
    else Leftmost(attempts, i + 1)
  }

  /** The search for the leftmost match skips positions where no attempt succeeds. */
  lemma {:induction false} LeftmostSkips(attempts: seq<Option<nat>>, i: nat, j: nat)
    requires i <= j <= |attempts|
    requires forall k :: i <= k < j ==> attempts[k].None?
    ensures Leftmost(attempts, i) == Leftmost(attempts, j)
    decreases j - i
  {
    if i < j {
      LeftmostSkips(attempts, i + 1, j);
    }
  }

  /**
   * Pattern 2: the whole string is eleven bare-id characters. Such a string
   * has no `/`, so pattern 1 never matches it, although each of its
   * characters is one pattern 1 would accept in an id.
   */
  predicate IsBareId(s: string): (b: bool)
    ensures b ==> forall j :: 0 <= j < |s| ==> IsIdChar(s[j])
    ensures b ==> MatchesNowhere(s)
  {
    |s| == IdLength && forall j :: 0 <= j < |s| ==> IsBareIdChar(s[j])
  }

  /** Pattern 1 matches at no start position of `url`. */
  predicate MatchesNowhere(url: string) {
    forall i :: 0 <= i <= |url| ==> CaptureAt(url, i).None?
  }

  /** `i` is the first start position at which pattern 1 matches, capturing at `at`. */
  predicate FirstMatch(url: string, i: nat, at: nat) {
    && i <= |url| && CaptureAt(url, i) == Some(at)
    && forall j :: 0 <= j < i ==> CaptureAt(url, j).None?
  }

  /**
   * `extractVideoId`: capture group 1 of the first of the two patterns that
   * matches. An id is found exactly when pattern 1 matches at some start
   * position; it is the capture of the leftmost such position, eleven id
   * characters that come after a `youtube.com/…` or `youtu.be/` prefix.
   */
  function ExtractVideoId(url: string): (r: Extracted)
    ensures r.Id? <==> !MatchesNowhere(url)
    ensures r.Id? ==> exists i: nat, at: nat ::
      FirstMatch(url, i, at) && at + IdLength <= |url| && url[at..at + IdLength] == r.id
    ensures r.Id? ==> |r.id| == IdLength && forall j :: 0 <= j < |r.id| ==> IsIdChar(r.id[j])
    ensures r.NoCaptureGroup? <==> MatchesNowhere(url) && IsBareId(url)
    ensures r.NoMatch? <==> MatchesNowhere(url) && !IsBareId(url)
  {
    LeftmostCapture(url);
    match Leftmost(Attempts(url), 0)
    case Some(c) =>
      var id := url[c.at..c.at + IdLength];
      assert forall j :: 0 <= j < |id| ==> id[j] == url[c.at + j];
      Id(id)
    case None =>
      if IsBareId(url) then NoCaptureGroup else NoMatch
  }

  /** The leftmost successful attempt is the first start position at which pattern 1 matches. */
  lemma {:induction false} LeftmostCapture(url: string)
    ensures match Leftmost(Attempts(url), 0)
      case Some(c) => FirstMatch(url, c.start, c.at)
      case None => MatchesNowhere(url)
  {
    var attempts := Attempts(url);
    match Leftmost(attempts, 0)
    case Some(c) =>
      assert CaptureAt(url, c.start) == Some(c.at);
      assert forall j :: 0 <= j < c.start ==> CaptureAt(url, j) == attempts[j];
    case None =>
      assert forall i :: 0 <= i <= |url| ==> CaptureAt(url, i) == attempts[i];
  }

  /** A bare eleven-character id matches only pattern 2, so nothing is extracted from it. */
  lemma BareIdYieldsNoId(url: string)
    requires IsBareId(url)
    ensures ExtractVideoId(url) == NoCaptureGroup
  {
  }

  /** Both prefixes of pattern 1 begin with `y`: no match starts at another character. */
  lemma NoCaptureBeforeY(s: string, i: nat)
    requires i < |s| && !SameIgnoringCase(s[i], 'y')
    ensures CaptureAt(s, i).None?
  {
    assert !SameIgnoringCase(s[i + 0], "youtube.com/"[0]);
    assert !SameIgnoringCase(s[i + 0], "youtu.be/"[0]);
  }

  /** No match of pattern 1 starts inside a prefix that has no `y` or `Y`. */
  lemma NoCaptureInPrefix(s: string, n: nat)
    requires n <= |s|
    requires forall j :: 0 <= j < n ==> !SameIgnoringCase(s[j], 'y')
    ensures Leftmost(Attempts(s), 0) == Leftmost(Attempts(s), n)
  {
    var attempts := Attempts(s);
    forall k | 0 <= k < n ensures attempts[k].None? { NoCaptureBeforeY(s, k); }
    LeftmostSkips(attempts, 0, n);
  }

  /** Pattern 1 first matches at `n` when nothing before `n` is a `y` or `Y`. */
  lemma ExtractsAt(s: string, n: nat, at: nat)
    requires n <= |s|
    requires forall j :: 0 <= j < n ==> !SameIgnoringCase(s[j], 'y')
    requires CaptureAt(s, n) == Some(at)
    ensures ExtractVideoId(s) == Id(s[at..at + IdLength])
  {
    NoCaptureInPrefix(s, n);
  }

  /** Eleven id characters at `at` in `s`, copied from `id`. */
  lemma IdCopied(s: string, at: nat, id: string)
    requires |id| == IdLength && forall j :: 0 <= j < |id| ==> IsIdChar(id[j])
    requires at + IdLength <= |s| && s[at..at + IdLength] == id
    ensures IdAt(s, at)
  {
    forall j | at <= j < at + IdLength ensures IsIdChar(s[j]) { assert s[j] == id[j - at]; }
  }

  /**
   * A short link (`youtu.be/` and an id, after any scheme or prefix without a
   * `y`, before any suffix) yields that id.
   */
  lemma ShortLinkYieldsId(prefix: string, id: string, suffix: string)
    requires forall j :: 0 <= j < |prefix| ==> !SameIgnoringCase(prefix[j], 'y')
    requires |id| == IdLength && forall j :: 0 <= j < |id| ==> IsIdChar(id[j])
    ensures ExtractVideoId(prefix + "youtu.be/" + id + suffix) == Id(id)
  {
    var host := "youtu.be/";
    var s := prefix + host + id + suffix;
    var n := |prefix|;
    assert forall j :: 0 <= j < n ==> s[j] == prefix[j];
    assert !LiteralAt(s, n, "youtube.com/") by {
      assert s[n + 5] == '.' && "youtube.com/"[5] == 'b';
      assert !SameIgnoringCase(s[n + 5], "youtube.com/"[5]);
    }
    assert forall j :: 0 <= j < |host| ==> s[n + j] == host[j];
    assert s[n + 9..n + 20] == id;
    IdCopied(s, n + 9, id);
    ExtractsAt(s, n, n + 9);
  }

  /** The part `watch?v=` and an id: no `/` and no line end in it. */
  lemma WatchPathPlain(s: string, p: nat, id: string)
    requires |id| == IdLength && forall j :: 0 <= j < |id| ==> IsIdChar(id[j])
    requires p + 8 + IdLength == |s| && s[p..p + 8] == "watch?v=" && s[p + 8..] == id
    ensures forall q :: p <= q < |s| ==> s[q] != '/' && !IsLineTerminator(s[q])
    ensures s[p] == 'w' && s[p + 5] == '?' && s[p + 6] == 'v' && s[p + 7] == '='
  {
    var lit := "watch?v=";
    forall q | p <= q < p + 8 ensures s[q] == lit[q - p] {
      assert s[q] == s[p..p + 8][q - p];
    }
    assert s[p] == lit[0] && s[p + 1] == lit[1] && s[p + 2] == lit[2] && s[p + 3] == lit[3];
    assert s[p + 4] == lit[4] && s[p + 5] == lit[5] && s[p + 6] == lit[6] && s[p + 7] == lit[7];
    forall q | p <= q < |s| ensures s[q] != '/' && !IsLineTerminator(s[q]) {
      if q >= p + 8 {
        assert s[q] == id[q - p - 8];
      }
    }
  }

  /** After `youtube.com/`, the part `watch?v=` and an id is matched by the query alternative only. */
  lemma WatchPathAlternatives(s: string, p: nat, id: string)
    requires |id| == IdLength && forall j :: 0 <= j < |id| ==> IsIdChar(id[j])
    requires p + 8 + IdLength == |s| && s[p..p + 8] == "watch?v=" && s[p + 8..] == id
    ensures PathAlternative(s, p).None? && EmbedAlternative(s, p).None?
    ensures QueryAlternative(s, p) == Some(p + 8)
  {
    WatchPathPlain(s, p, id);
    assert SlashFrom(s, p) == |s|;
    assert !SameIgnoringCase(s[p + 0], "v/"[0]);
    assert !SameIgnoringCase(s[p + 0], "embed/"[0]);
    assert !SameIgnoringCase(s[p + 0], "e/"[0]);
    assert LineEndFrom(s, p) == |s|;
    assert LiteralAt(s, p + 6, "v=");
    IdCopied(s, p + 8, id);
    assert ProbeAt(s, p + 5, QueryThenId);
    forall k | p + 5 < k < |s| ensures !ProbeAt(s, k, QueryThenId) {
      if k >= p + 8 { assert s[k] == id[k - p - 8]; }
    }
    assert LastProbe(s, p, |s|, QueryThenId) == Some(p + 5);
  }

  /** At `n`, `youtube.com/watch?v=` and an id: pattern 1 captures the id there. */
  lemma WatchCapture(s: string, n: nat, id: string)
    requires |id| == IdLength && forall j :: 0 <= j < |id| ==> IsIdChar(id[j])
    requires n + 20 + IdLength == |s|
    requires s[n..n + 12] == "youtube.com/" && s[n + 12..n + 20] == "watch?v=" && s[n + 20..] == id
    ensures CaptureAt(s, n) == Some(n + 20)
  {
    var host := "youtube.com/";
    assert forall j :: 0 <= j < |host| ==> s[n + j] == host[j];
    assert LiteralAt(s, n, host);
    WatchPathAlternatives(s, n + 12, id);
  }

  /** The parts of `p + h + w + t` sit at their offsets. */
  lemma {:induction false} ConcatParts(p: string, h: string, w: string, t: string)
    ensures var s := p + h + w + t;
      && |s| == |p| + |h| + |w| + |t|
      && (forall j :: 0 <= j < |p| ==> s[j] == p[j])
      && s[|p|..|p| + |h|] == h && s[|p| + |h|..|p| + |h| + |w|] == w && s[|p| + |h| + |w|..] == t
  {
    var s := p + h + w + t;
    assert s == p + (h + (w + t));
    assert s[|p|..] == h + (w + t);
    assert s[|p| + |h|..] == w + t;
  }

  /** `youtube.com/watch?v=` and an id at `n`, after no `y`: that id is extracted. */
  lemma {:induction false} WatchLinkAt(s: string, n: nat, id: string)
    requires n + 20 + IdLength == |s|
    requires forall j :: 0 <= j < n ==> !SameIgnoringCase(s[j], 'y')
    requires |id| == IdLength && forall j :: 0 <= j < |id| ==> IsIdChar(id[j])
    requires s[n..n + 12] == "youtube.com/" && s[n + 12..n + 20] == "watch?v=" && s[n + 20..] == id
    ensures ExtractVideoId(s) == Id(id)
  {
    WatchCapture(s, n, id);
    assert s[n + 20..n + 20 + IdLength] == id;
    ExtractsAt(s, n, n + 20);
  }

  /**
   * A watch link (`youtube.com/watch?v=` and an id, after any scheme or prefix
   * without a `y`) yields that id, found by the `.*[?&]v=` alternative.
   */
  lemma {:induction false} WatchLinkYieldsId(prefix: string, id: string)
    requires forall j :: 0 <= j < |prefix| ==> !SameIgnoringCase(prefix[j], 'y')
    requires |id| == IdLength && forall j :: 0 <= j < |id| ==> IsIdChar(id[j])
    ensures ExtractVideoId(prefix + "youtube.com/watch?v=" + id) == Id(id)
  {
    var host, path := "youtube.com/", "watch?v=";
    assert host + path == "youtube.com/watch?v=";
    var s := prefix + host + path + id;
    assert s == prefix + (host + path) + id;
    ConcatParts(prefix, host, path, id);
    WatchLinkAt(s, |prefix|, id);
  }

  /**
   * At `n`, `youtube.com/embed/` and an id, with no `/` after it: the path
   * alternative finds no second `/` to back off to, and the embed alternative
   * captures the id.
   */
  lemma {:induction false} EmbedCapture(s: string, n: nat, id: string)
    requires |id| == IdLength && forall j :: 0 <= j < |id| ==> IsIdChar(id[j])
    requires n + 18 + IdLength <= |s|
    requires s[n..n + 12] == "youtube.com/" && s[n + 12..n + 18] == "embed/" && s[n + 18..n + 29] == id
    requires forall q :: n + 29 <= q < |s| ==> s[q] != '/'
    ensures CaptureAt(s, n) == Some(n + 18)
  {
    var host, path := "youtube.com/", "embed/";
    var p := n + 12;
    forall j | 0 <= j < |host| ensures s[n + j] == host[j] { assert s[n + j] == s[n..n + 12][j]; }
    assert LiteralAt(s, n, host);
    forall j | 0 <= j < |path| ensures s[p + j] == path[j] { assert s[p + j] == s[p..p + 6][j]; }
    forall q | p + 6 <= q < |s| ensures s[q] != '/' {
      if q < n + 29 { assert s[q] == id[q - p - 6]; }
    }
    assert SlashFrom(s, p) == p + 5 by {
      assert s[p] == 'e' && s[p + 1] == 'm' && s[p + 2] == 'b' && s[p + 3] == 'e' && s[p + 4] == 'd';
      assert s[p + 5] == '/';
    }
    assert PathAlternative(s, p).None?;
    assert !SameIgnoringCase(s[p + 0], "v/"[0]);
    assert LiteralAt(s, p, path);
    IdCopied(s, p + 6, id);
    assert EmbedAlternative(s, p) == Some(p + 6);
  }

  /**
   * An embed link (`youtube.com/embed/` and an id, after any scheme or prefix
   * without a `y`, before any suffix without a `/`) yields that id.
   */
  lemma {:induction false} EmbedLinkYieldsId(prefix: string, id: string, suffix: string)
    requires forall j :: 0 <= j < |prefix| ==> !SameIgnoringCase(prefix[j], 'y')
    requires |id| == IdLength && forall j :: 0 <= j < |id| ==> IsIdChar(id[j])
    requires forall j :: 0 <= j < |suffix| ==> suffix[j] != '/'
    ensures ExtractVideoId(prefix + "youtube.com/embed/" + id + suffix) == Id(id)
  {
    var host, path := "youtube.com/", "embed/";
    assert host + path == "youtube.com/embed/";
    var s := prefix + host + path + (id + suffix);
    assert s == prefix + (host + path) + id + suffix;
    ConcatParts(prefix, host, path, id + suffix);
    var n := |prefix|;
    assert s[n + 18..n + 29] == id by { assert s[n + 18..] == id + suffix; }
    forall q | n + 29 <= q < |s| ensures s[q] != '/' {
      assert s[n + 18..][q - n - 18] == (id + suffix)[q - n - 18];
    }
    EmbedCapture(s, n, id);
    ExtractsAt(s, n, n + 18);
  }
}
