/**
 * The rules of the summarize page: the URL check made before a submission is
 * sent, the polling interval of the details query, the status label, and the
 * form state that `handleSubmit`, `onSuccess` and `onError` update.
 */
module SummarizePage {
  import opened Wrappers
  import opened YoutubeId

  /** `s` begins with `p`. */
  predicate HasPrefix(s: string, p: string) {
    |p| <= |s| && s[..|p|] == p
  }

  /** `.+$`: at least one character, none of them a line terminator. */
  predicate IsRest(s: string) {
    |s| >= 1 && forall j :: 0 <= j < |s| ==> !IsLineTerminator(s[j])
  }

  /** `(youtube\.com|youtu\.be)\/.+$` at the start of `s`. */
  predicate HostThenRest(s: string) {
    || (HasPrefix(s, "youtube.com/") && IsRest(s[12..]))
    || (HasPrefix(s, "youtu.be/") && IsRest(s[9..]))
  }

  /** `(www\.)?` followed by the host part. */
  predicate WwwThenHost(s: string) {
    HostThenRest(s) || (HasPrefix(s, "www.") && HostThenRest(s[4..]))
  }

  /** The choices the pattern offers for its scheme, its `www.` and its host with the slash. */
  const Schemes: seq<string> := ["", "http://", "https://"]
  const Wwws: seq<string> := ["", "www."]
  const Hosts: seq<string> := ["youtube.com/", "youtu.be/"]

  /** The prefix the choices `a`, `b` and `c` spell. */
  function Prefix(a: nat, b: nat, c: nat): (p: string)
    requires a < 3 && b < 2 && c < 2
    ensures |p| == |Schemes[a]| + |Wwws[b]| + |Hosts[c]|
  {
    Schemes[a] + Wwws[b] + Hosts[c]
  }

  /** `url` is the prefix for choices `a`, `b`, `c` followed by a non-empty single-line rest. */
  predicate Decomposes(url: string, a: nat, b: nat, c: nat) {
    a < 3 && b < 2 && c < 2 && HasPrefix(url, Prefix(a, b, c)) && IsRest(url[|Prefix(a, b, c)|..])
  }

  lemma {:induction false} PrefixAfter(s: string, p: string, q: string)
    requires HasPrefix(s, p) && HasPrefix(s[|p|..], q)
    ensures HasPrefix(s, p + q) && s[|p + q|..] == s[|p|..][|q|..]
  {
    assert s[..|p + q|] == s[..|p|] + s[|p|..][..|q|];
  }

  lemma {:induction false} HostSound(s: string, p: string, a: nat, b: nat)
    requires a < 3 && b < 2 && p == Schemes[a] + Wwws[b]
    requires HasPrefix(s, p) && HostThenRest(s[|p|..])
    ensures exists c: nat :: Decomposes(s, a, b, c)
  {
    var r := s[|p|..];
    if HasPrefix(r, "youtube.com/") && IsRest(r[12..]) {
      PrefixAfter(s, p, Hosts[0]);
      assert Decomposes(s, a, b, 0);
    } else {
      PrefixAfter(s, p, Hosts[1]);
      assert Decomposes(s, a, b, 1);
    }
  }

  lemma {:induction false} WwwSound(s: string, a: nat)
    requires a < 3 && HasPrefix(s, Schemes[a]) && WwwThenHost(s[|Schemes[a]|..])
    ensures exists b: nat, c: nat :: Decomposes(s, a, b, c)
  {
    var r := s[|Schemes[a]|..];
    if HostThenRest(r) {
      assert Schemes[a] + Wwws[0] == Schemes[a];
      HostSound(s, Schemes[a], a, 0);
    } else {
      PrefixAfter(s, Schemes[a], Wwws[1]);
      HostSound(s, Schemes[a] + Wwws[1], a, 1);
    }
  }

  /**
   * `isValidYoutubeUrl`: `/^(https?:\/\/)?(www\.)?(youtube\.com|youtu\.be)\/.+$/`
   * tried with every choice of its optional groups. There is no `i` flag, so
   * letters must match exactly. An accepted URL is a scheme choice, a `www.`
   * choice, a host and a non-empty single-line rest.
   */
  predicate IsValidYoutubeUrl(url: string): (ok: bool)
    ensures ok ==> exists a: nat, b: nat, c: nat :: Decomposes(url, a, b, c)
  {
    if WwwThenHost(url) then
      assert url[|Schemes[0]|..] == url;
      WwwSound(url, 0);
      true
    else if HasPrefix(url, "http://") && WwwThenHost(url[7..]) then
      WwwSound(url, 1);
      true
    else if HasPrefix(url, "https://") && WwwThenHost(url[8..]) then
      WwwSound(url, 2);
      true
    else false
  }

  lemma {:induction false} PrefixSplit(s: string, p: string, q: string)
    requires HasPrefix(s, p + q)
    ensures HasPrefix(s, p) && HasPrefix(s[|p|..], q) && s[|p|..][|q|..] == s[|p + q|..]
  {
    assert s[..|p|] == s[..|p + q|][..|p|];
    assert s[|p|..][..|q|] == s[..|p + q|][|p|..];
  }

  /** Every combination of the pattern's choices followed by a non-empty single-line rest is accepted. */
  lemma {:induction false} DecompositionValid(url: string, a: nat, b: nat, c: nat)
    requires Decomposes(url, a, b, c)
    ensures IsValidYoutubeUrl(url)
  {
    var scheme, www, host := Schemes[a], Wwws[b], Hosts[c];
    PrefixSplit(url, scheme + www, host);
    PrefixSplit(url, scheme, www);
    var s := url[|scheme|..];
    var w := s[|www|..];
    assert w == url[|scheme + www|..];
    assert HasPrefix(w, host) && IsRest(w[|host|..]);
    assert HostThenRest(w) by {
      if c == 0 { assert w[12..] == w[|host|..]; } else { assert w[9..] == w[|host|..]; }
    }
    assert WwwThenHost(s) by {
      if b == 1 { assert s[4..] == w; } else { assert s == w; }
    }
    if a == 0 { assert url == s; }
  }

  /** The message of the mutation's own check. */
  const InvalidUrlMessage: string := "Please enter a valid YouTube URL"

  /** The message shown when the mutation throws something other than an `Error`. */
  const DefaultFailureMessage: string := "Failed to process video"

  /** What the backend returns for a submission: the video row, of which the page uses the id. */
  datatype ProcessedVideo = ProcessedVideo(id: string)

  /**
   * `mutationFn`: an invalid URL throws before any request is sent; otherwise
   * the request is sent and its reply is the mutation's result.
   */
  function Mutation(url: string, reply: Result<ProcessedVideo, Thrown>): (r: (bool, Result<ProcessedVideo, Thrown>))
    ensures r.0 <==> IsValidYoutubeUrl(url)
    ensures !r.0 ==> r.1 == Failure(ErrorObject(InvalidUrlMessage))
    ensures r.0 ==> r.1 == reply
  {
    if !IsValidYoutubeUrl(url) then (false, Failure(ErrorObject(InvalidUrlMessage)))
    else (true, reply)
  }

  /** The fields of the details response the page reads. */
  datatype DetailsView = DetailsView(hasTranscript: bool, hasSummary: bool)

  /** A `refetchInterval` value: `false`, or a period in milliseconds. */
  datatype Interval = Off | Every(ms: nat)

  const PollMs: nat := 2000

  /** `refetchInterval`: no polling before the first data, then every 2000 ms until both parts are there. */
  function RefetchInterval(data: Option<DetailsView>): (r: Interval)
    ensures data.None? ==> r == Off
    ensures data.Some? ==> (r == Every(PollMs) <==> !(data.value.hasTranscript && data.value.hasSummary))
    ensures r == Off || r == Every(PollMs)
  {
    match data
    case None => Off
    case Some(d) => if !(d.hasTranscript && d.hasSummary) then Every(PollMs) else Off
  }

  /** The status label of the details panel. */
  function StatusLabel(d: DetailsView): (shown: string)
    ensures shown == "Completed" <==> d.hasTranscript && d.hasSummary
    ensures shown == "Completed" || shown == "Processing"
  {
    if d.hasTranscript && d.hasSummary then "Completed" else "Processing"
  }

  /** Once details are shown, polling stops exactly when the label reads "Completed". */
  lemma PollingStopsWhenCompleted(d: DetailsView)
    ensures RefetchInterval(Some(d)) == Off <==> StatusLabel(d) == "Completed"
  {
  }

  /** The component state the form reads and writes. */
  class SummarizeForm {
    var url: string
    var videoId: Option<string>
    var error: Option<string>

    constructor ()
      ensures url == "" && videoId == None && error == None
    {
      url, videoId, error := "", None, None;
    }

    /** `onSuccess`: keeps the returned video's id and clears the error. */
    method OnSuccess(data: ProcessedVideo)
      modifies this
      ensures videoId == Some(data.id) && error == None && url == old(url)
    {
      videoId := Some(data.id);
      error := None;
    }

    /** `onError`: shows the error's message, or the default one. */
    method OnError(thrown: Thrown)
      modifies this
      ensures error == Some(MessageOr(thrown, DefaultFailureMessage))
      ensures videoId == old(videoId) && url == old(url)
    {
      error := Some(MessageOr(thrown, DefaultFailureMessage));
    }

    /**
     * `handleSubmit` with the mutation settled: the error is cleared, and a
     * non-empty URL is handed to the mutation, whose outcome lands in
     * `onSuccess` or `onError`. `requestSent` says whether the backend was called.
     */
    method HandleSubmit(reply: Result<ProcessedVideo, Thrown>) returns (requestSent: bool)
      modifies this
      ensures url == old(url)
      ensures requestSent <==> url != "" && IsValidYoutubeUrl(url)
      ensures url == "" ==> error == None && videoId == old(videoId)
      ensures url != "" && !IsValidYoutubeUrl(url) ==> error == Some(InvalidUrlMessage) && videoId == old(videoId)
      ensures requestSent && reply.Success? ==> videoId == Some(reply.value.id) && error == None
      ensures requestSent && reply.Failure? ==>
        error == Some(MessageOr(reply.error, DefaultFailureMessage)) && videoId == old(videoId)
    {
      error := None;
      requestSent := false;
      if url != "" {
        var (sent, outcome) := Mutation(url, reply);
        requestSent := sent;
        match outcome
        case Success(data) => OnSuccess(data);
        case Failure(thrown) => OnError(thrown);
      }
    }
  }
}
