/** The reverse proxy that moves requests for the native admission registration
    group to the CRD group, and moves the answers back. */
module Interceptor {
  import opened Replacement
  import opened Lines

  /** The two spellings of the API group and version. */
  datatype Groups = Groups(native: Bytes, crd: Bytes) {
    ghost predicate Valid() {
      && Separable(native, crd) && Separable(crd, native)
      && OneLine(native) && OneLine(crd)
      && |crd| == |native| + 2
    }
  }

  const NATIVE_GROUP: Bytes := "admissionregistration.k8s.io/v1alpha1"
  const CRD_GROUP: Bytes := "admissionregistration.x-k8s.io/v1alpha1"
  const KUBERNETES := Groups(NATIVE_GROUP, CRD_GROUP)

  function Forward(g: Groups, s: Bytes): Bytes
    requires |g.native| > 0
  {
    ReplaceAll(s, g.native, g.crd)
  }

  function Backward(g: Groups, s: Bytes): Bytes
    requires |g.crd| > 0
  {
    ReplaceAll(s, g.crd, g.native)
  }

  // ---- The two patterns ----

  /** `p` starts with "ad" and "ad" is nowhere else in it. */
  ghost predicate StartsOnce(p: Bytes) {
    && |p| > 2 && p[0] == 'a' && p[1] == 'd'
    && p[|p| - 1] != 'a'
    && forall k :: 0 < k < |p| - 1 ==> p[k] != 'a' || p[k + 1] != 'd'
  }

  lemma StartsOnceApart(x: Bytes, y: Bytes)
    requires StartsOnce(x) && StartsOnce(y)
    ensures NoOverlap(x, y)
  {}

  lemma NativeStartsOnce()
    ensures StartsOnce(NATIVE_GROUP)
  {}

  lemma CrdStartsOnce()
    ensures StartsOnce(CRD_GROUP)
  {}

  lemma NativeIsOneLine()
    ensures OneLine(NATIVE_GROUP)
  {}

  lemma CrdIsOneLine()
    ensures OneLine(CRD_GROUP)
  {}

  lemma NeitherIsPrefix()
    ensures !(NATIVE_GROUP <= CRD_GROUP) && !(CRD_GROUP <= NATIVE_GROUP)
  {
    assert NATIVE_GROUP[22] != CRD_GROUP[22];
  }

  /** The two group names have no borders, do not contain each other, no end of
      one is a start of the other, and neither holds a line end. */
  lemma KubernetesGroupsAreValid()
    ensures KUBERNETES.native == "admissionregistration.k8s.io/v1alpha1"
    ensures KUBERNETES.crd == "admissionregistration.x-k8s.io/v1alpha1"
    ensures KUBERNETES.Valid()
  {
    NativeStartsOnce();
    CrdStartsOnce();
    NeitherIsPrefix();
    NativeIsOneLine();
    CrdIsOneLine();
    StartsOnceApart(NATIVE_GROUP, NATIVE_GROUP);
    StartsOnceApart(NATIVE_GROUP, CRD_GROUP);
    StartsOnceApart(CRD_GROUP, NATIVE_GROUP);
    StartsOnceApart(CRD_GROUP, CRD_GROUP);
  }

  // ---- Request and answer rewriting are inverse ----

  lemma RewriteForthAndBack(g: Groups, s: Bytes)
    requires g.Valid()
    ensures Backward(g, Forward(g, s)) == Backward(g, s)
    ensures Forward(g, Backward(g, s)) == Forward(g, s)
  {
    ForthAndBack(s, g.native, g.crd);
    ForthAndBack(s, g.crd, g.native);
  }

  /** A path, or a text rewritten in one piece, holds no native name afterwards;
      matches are conserved; the length grows by two for each match. For bodies see
      `SentNamesExactly`. */
  lemma ForwardConserves(g: Groups, s: Bytes)
    requires g.Valid()
    ensures !Contains(Forward(g, s), g.native)
    ensures Count(Forward(g, s), g.crd) == Count(s, g.native) + Count(s, g.crd)
    ensures |Forward(g, s)| == |s| + 2 * Count(s, g.native)
  {
    ReplacedCounts(s, g.native, g.crd);
    ReplacedLength(s, g.native, g.crd);
    AbsentUnchanged(Forward(g, s), g.native, g.crd);
  }

  /** The same on the way back, where each match shrinks the answer by two. */
  lemma BackwardConserves(g: Groups, s: Bytes)
    requires g.Valid()
    ensures !Contains(Backward(g, s), g.crd)
    ensures Count(Backward(g, s), g.native) == Count(s, g.native) + Count(s, g.crd)
    ensures |Backward(g, s)| == |s| - 2 * Count(s, g.crd)
  {
    ReplacedCounts(s, g.crd, g.native);
    ReplacedLength(s, g.crd, g.native);
    AbsentUnchanged(Backward(g, s), g.crd, g.native);
  }

  /** The exact texts that survive the way through the proxy and back. */
  lemma RoundTripExactly(g: Groups, s: Bytes)
    requires g.Valid()
    ensures Backward(g, Forward(g, s)) == s <==> !Contains(s, g.crd)
    ensures Forward(g, Backward(g, s)) == s <==> !Contains(s, g.native)
  {
    RewriteForthAndBack(g, s);
    ForwardConserves(g, s);
    BackwardConserves(g, s);
    AbsentUnchanged(s, g.native, g.crd);
    AbsentUnchanged(s, g.crd, g.native);
  }

  /** `Forward` is a bijection from the texts without the CRD group to the texts
      without the native group, and `Backward` is its inverse. */
  lemma ForwardIsBijection(g: Groups)
    requires g.Valid()
    ensures forall s, t ::
      !Contains(s, g.crd) && !Contains(t, g.crd) && Forward(g, s) == Forward(g, t) ==> s == t
    ensures forall t :: !Contains(t, g.native) ==>
      !Contains(Backward(g, t), g.crd) && Forward(g, Backward(g, t)) == t
  {
    forall s, t | !Contains(s, g.crd) && !Contains(t, g.crd) && Forward(g, s) == Forward(g, t)
      ensures s == t
    {
      RoundTripExactly(g, s);
      RoundTripExactly(g, t);
    }
    forall t | !Contains(t, g.native)
      ensures !Contains(Backward(g, t), g.crd) && Forward(g, Backward(g, t)) == t
    {
      RoundTripExactly(g, t);
      BackwardConserves(g, t);
    }
  }

  // ---- The streamed request body ----

  function Concat(chunks: seq<Bytes>): Bytes {
    if chunks == [] then [] else chunks[0] + Concat(chunks[1..])
  }

  /** Each scanned line rewritten on its own. */
  function RewrittenLines(g: Groups, s: Bytes, eof: bool): seq<Bytes>
    requires |g.native| > 0
    decreases |s|
  {
    if s == [] || TooLong(s, eof) then []
    else [Forward(g, DropCarriageReturn(FirstLine(s)))] + RewrittenLines(g, AfterLine(s), eof)
  }

  lemma {:induction false} RewrittenLinesAreScannedLines(g: Groups, s: Bytes, eof: bool)
    requires |g.native| > 0
    ensures |RewrittenLines(g, s, eof)| == |ScannedLines(s, eof)|
    ensures forall i :: 0 <= i < |ScannedLines(s, eof)| ==>
      RewrittenLines(g, s, eof)[i] == Forward(g, ScannedLines(s, eof)[i])
    decreases |s|
  {
    if s != [] && !TooLong(s, eof) {
      RewrittenLinesAreScannedLines(g, AfterLine(s), eof);
    }
  }

  /** The goroutine of `Rewrite`: scan a line, rewrite it, write it to the pipe. */
  method StreamBody(g: Groups, body: Bytes, eof: bool) returns (pipe: seq<Bytes>)
    requires g.Valid()
    ensures pipe == RewrittenLines(g, body, eof)
    ensures Concat(pipe) == StripLineEnds(Forward(g, body)) <==> LinesFit(body, eof)
  {
    pipe := [];
    var rest := body;
    while rest != [] && !TooLong(rest, eof)
      invariant pipe + RewrittenLines(g, rest, eof) == RewrittenLines(g, body, eof)
      decreases |rest|
    {
      var token := DropCarriageReturn(FirstLine(rest));
      var b := ReplaceAllLoop(token, g.native, g.crd);
      Associate(pipe, [b], RewrittenLines(g, AfterLine(rest), eof));
      pipe := pipe + [b];
      rest := AfterLine(rest);
    }
    StreamedBodyExactly(g, body, eof);
  }

  /** What the scanner sends is the rewritten body with its line ends stripped,
      exactly when the scanner's buffer can hold every line. */
  lemma {:induction false} StreamedBodyExactly(g: Groups, s: Bytes, eof: bool)
    requires g.Valid()
    ensures Concat(RewrittenLines(g, s, eof)) == StripLineEnds(Forward(g, s)) <==> LinesFit(s, eof)
    decreases |s|
  {
    if s != [] {
      var line, rest := DropCarriageReturn(FirstLine(s)), AfterLine(s);
      FitByLine(s, eof);
      StripReplacedByLine(s, g.native, g.crd);
      if TooLong(s, eof) {
        LongLineIsNotEmpty(g, s);
        assert |Forward(g, line) + StripLineEnds(Forward(g, rest))| > 0;
      } else {
        StreamedBodyExactly(g, rest, eof);
        ConcatFirst(Forward(g, line), RewrittenLines(g, rest, eof));
        CancelFront(Forward(g, line), Concat(RewrittenLines(g, rest, eof)), StripLineEnds(Forward(g, rest)));
      }
    }
  }

  lemma LongLineIsNotEmpty(g: Groups, s: Bytes)
    requires g.Valid() && LineLength(s) >= MAX_SCAN_TOKEN_SIZE
    ensures |Forward(g, DropCarriageReturn(FirstLine(s)))| > 0
  {
    ForwardConserves(g, DropCarriageReturn(FirstLine(s)));
  }

  /** A body is sent as its part that the scanner sees would be. */
  lemma {:induction false} OnlyScannedIsSent(g: Groups, s: Bytes, eof: bool)
    requires |g.native| > 0
    ensures RewrittenLines(g, s, eof) == RewrittenLines(g, Scanned(s, eof), eof)
    decreases |s|
  {
    if s != [] && !TooLong(s, eof) {
      LineParts(s);
      if LineLength(s) < |s| {
        LineOfParts(FirstLine(s), Scanned(AfterLine(s), eof));
        OnlyScannedIsSent(g, AfterLine(s), eof);
      }
    }
  }

  // ---- Names that a line end splits ----

  /** Names of either group in a text without its line ends, when the text is
      rewritten first: the names in the text itself turn from native to CRD, those
      that appear by joining lines stay. */
  lemma {:induction false} JoinedNames(g: Groups, s: Bytes)
    requires g.Valid()
    ensures Count(StripLineEnds(Forward(g, s)), g.native) + Count(s, g.native) == Count(StripLineEnds(s), g.native)
    ensures Count(StripLineEnds(Forward(g, s)), g.crd) == Count(StripLineEnds(s), g.crd) + Count(s, g.native)
    decreases |s|
  {
    AbsentUnchanged(s, g.native, g.crd);
    if Contains(s, g.native) {
      var front, rest := FirstMatchParts(s, g.native, g.crd);
      JoinedNames(g, rest);
      JoinedNamesStep(g, front, rest);
    }
  }

  lemma JoinedNamesStep(g: Groups, front: Bytes, rest: Bytes)
    requires g.Valid()
    ensures var f, n := StripInner(front), Forward(g, rest);
      && Count(StripLineEnds(front + (g.native + rest)), g.native) ==
           Count(f, g.native) + 1 + Count(StripLineEnds(rest), g.native)
      && Count(StripLineEnds(front + (g.native + rest)), g.crd) ==
           Count(f, g.crd) + Count(StripLineEnds(rest), g.crd)
      && Count(StripLineEnds(front + (g.crd + n)), g.native) == Count(f, g.native) + Count(StripLineEnds(n), g.native)
      && Count(StripLineEnds(front + (g.crd + n)), g.crd) == Count(f, g.crd) + 1 + Count(StripLineEnds(n), g.crd)
  {
    var f, n := StripInner(front), Forward(g, rest);
    StripAround(front, g.native, rest);
    StripAround(front, g.crd, n);
    CountAround(f, g.native, StripLineEnds(rest), g.native, g.crd);
    CountAround(f, g.native, StripLineEnds(rest), g.crd, g.crd);
    CountAround(f, g.crd, StripLineEnds(n), g.native, g.native);
    CountAround(f, g.crd, StripLineEnds(n), g.crd, g.native);
  }

  /** The names in a body that is sent, for every body: with `t` the part that the
      scanner sees, the native names left are those that stripping the line ends of
      `t` adds, and each native name of `t` has become a CRD name. */
  lemma SentNamesExactly(g: Groups, s: Bytes, eof: bool)
    requires g.Valid()
    ensures var sent, t := Concat(RewrittenLines(g, s, eof)), Scanned(s, eof);
      && Count(sent, g.native) == Count(StripLineEnds(t), g.native) - Count(t, g.native)
      && Count(sent, g.crd) == Count(StripLineEnds(t), g.crd) + Count(t, g.native)
      && (Contains(sent, g.native) <==> Count(StripLineEnds(t), g.native) > Count(t, g.native))
      && (t == s <==> LinesFit(s, eof))
  {
    var sent, t := Concat(RewrittenLines(g, s, eof)), Scanned(s, eof);
    ScannedFits(s, eof);
    ScannedExactly(s, eof);
    OnlyScannedIsSent(g, s, eof);
    StreamedBodyExactly(g, t, eof);
    JoinedNames(g, t);
    AbsentUnchanged(sent, g.native, g.crd);
  }

  lemma ConcatFirst(first: Bytes, rest: seq<Bytes>)
    ensures Concat([first] + rest) == first + Concat(rest)
  {}

  lemma CancelFront(a: Bytes, x: Bytes, y: Bytes)
    ensures a + x == a + y <==> x == y
  {
    assert (a + x)[|a|..] == x && (a + y)[|a|..] == y;
  }

  /** Lines are rewritten one at a time and sent without line ends, so a group
      name that a line end splits leaves the proxy whole and not rewritten. */
  lemma SplitNameIsNotRewritten(g: Groups, front: Bytes, back: Bytes, eof: bool)
    requires g.Valid() && g.native == front + back && 0 < |front| && 0 < |back|
    requires |g.native| < MAX_SCAN_TOKEN_SIZE
    ensures Concat(RewrittenLines(g, Around(front, '\n', back), eof)) == g.native
  {
    assert front == g.native[..|front|] && back == g.native[|front|..];
    PartOfName(g, 0, |front|);
    PartOfName(g, |front|, |g.native|);
    StreamTwoLines(g, front, back, eof);
  }

  lemma StreamTwoLines(g: Groups, front: Bytes, back: Bytes, eof: bool)
    requires |g.native| > 0 && NoBreak(front) && NoBreak(back)
    requires |front| < MAX_SCAN_TOKEN_SIZE && 0 < |back| < MAX_SCAN_TOKEN_SIZE
    ensures Concat(RewrittenLines(g, Around(front, '\n', back), eof)) ==
      Forward(g, DropCarriageReturn(front)) + Forward(g, DropCarriageReturn(back))
  {
    var a, b := Forward(g, DropCarriageReturn(front)), Forward(g, DropCarriageReturn(back));
    StreamTerminated(g, front, back, eof);
    StreamUnterminated(g, back, eof);
    ConcatFirst(a, [b] + []);
    ConcatFirst(b, []);
  }

  lemma StreamTerminated(g: Groups, line: Bytes, rest: Bytes, eof: bool)
    requires |g.native| > 0 && NoBreak(line) && |line| < MAX_SCAN_TOKEN_SIZE
    ensures RewrittenLines(g, Around(line, '\n', rest), eof) ==
      [Forward(g, DropCarriageReturn(line))] + RewrittenLines(g, rest, eof)
  {
    LineOfParts(line, rest);
  }

  lemma StreamUnterminated(g: Groups, line: Bytes, eof: bool)
    requires |g.native| > 0 && NoBreak(line) && 0 < |line| < MAX_SCAN_TOKEN_SIZE
    ensures RewrittenLines(g, line, eof) == [Forward(g, DropCarriageReturn(line))] + []
  {
    LineWithoutBreak(line);
  }

  lemma PartOfName(g: Groups, i: nat, j: nat)
    requires g.Valid() && i <= j <= |g.native| && j - i < |g.native|
    ensures NoBreak(g.native[i..j])
    ensures Forward(g, DropCarriageReturn(g.native[i..j])) == g.native[i..j]
  {}

  // ---- The two guards ----

  datatype Url = Url(path: Bytes, rawPath: Bytes)

  /** The path that `httputil.ProxyRequest.SetURL` makes of the target's path and
      the request's; the flags tell whether the escaped paths meet in slashes. */
  function JoinPath(base: Bytes, path: Bytes, baseSlash: bool, pathSlash: bool): Bytes
    requires pathSlash ==> |path| > 0 && path[0] == '/'
  {
    if baseSlash && pathSlash then base + path[1..]
    else if !baseSlash && !pathSlash then base + "/" + path
    else base + path
  }

  /** If the flags are about these paths, exactly one slash joins them. */
  lemma JoinedByOneSlash(base: Bytes, path: Bytes)
    ensures var baseSlash := |base| > 0 && base[|base| - 1] == '/';
      var pathSlash := |path| > 0 && path[0] == '/';
      JoinPath(base, path, baseSlash, pathSlash)
        == (if baseSlash then base[..|base| - 1] else base) + "/" + (if pathSlash then path[1..] else path)
  {}

  lemma JoinKeepsGroup(g: Groups, base: Bytes, path: Bytes, baseSlash: bool, pathSlash: bool)
    requires pathSlash ==> |path| > 0 && path[0] == '/'
    requires |g.native| > 0 && g.native[0] != '/' && Contains(path, g.native)
    ensures Contains(JoinPath(base, path, baseSlash, pathSlash), g.native)
  {
    var joined := JoinPath(base, path, baseSlash, pathSlash);
    var tail := if baseSlash && pathSlash then path[1..] else path;
    var i :| OccursAt(path, g.native, i);
    if baseSlash && pathSlash {
      assert g.native[0] == path[i];
      OccursInSuffix(path, g.native, 1, i - 1);
      i := i - 1;
    }
    var n := |joined| - |tail|;
    assert joined[n..] == tail;
    OccursInSuffix(joined, g.native, n, i);
  }

  /** The path that is sent on. */
  function SentPath(g: Groups, joined: Bytes, rewritten: bool): Bytes
    requires |g.native| > 0
  {
    if rewritten then Forward(g, joined) else joined
  }

  /** An answer is rewritten whenever its request was. It is rewritten without
      that only if the joined path names the CRD group by itself. */
  lemma AnswerGuardFollowsRequestGuard(g: Groups, base: Bytes, path: Bytes, baseSlash: bool, pathSlash: bool)
    requires g.Valid() && g.native[0] != '/'
    requires pathSlash ==> |path| > 0 && path[0] == '/'
    ensures var joined := JoinPath(base, path, baseSlash, pathSlash);
      Contains(SentPath(g, joined, Contains(path, g.native)), g.crd)
      <==> Contains(path, g.native) || Contains(joined, g.crd)
  {
    var joined := JoinPath(base, path, baseSlash, pathSlash);
    if Contains(path, g.native) {
      JoinKeepsGroup(g, base, path, baseSlash, pathSlash);
      AbsentUnchanged(joined, g.native, g.crd);
      ForwardConserves(g, joined);
      AbsentUnchanged(Forward(g, joined), g.crd, g.native);
    }
  }

  // ---- The proxy's two hooks ----

  datatype Body = Original(data: Bytes) | Piped(chunks: seq<Bytes>)

  class OutgoingRequest {
    var url: Url
    var accept: Bytes
    var contentLength: int
    var body: Body

    constructor (url: Url, accept: Bytes, contentLength: int, body: Body)
      ensures this.url == url && this.accept == accept
      ensures this.contentLength == contentLength && this.body == body
    {
      this.url, this.accept, this.contentLength, this.body := url, accept, contentLength, body;
    }
  }

  class Response {
    var body: Bytes
    var contentLength: int
    var contentLengthHeader: int

    constructor (body: Bytes, contentLength: int)
      ensures this.body == body && this.contentLength == contentLength == contentLengthHeader
    {
      this.body, this.contentLength, this.contentLengthHeader := body, contentLength, contentLength;
    }
  }

  /** The request hook. `joined` is the URL that `SetURL` gives the outgoing
      request. */
  method Rewrite(g: Groups, inPath: Bytes, inBody: Bytes, eof: bool, joined: Url, out: OutgoingRequest)
    requires g.Valid()
    modifies out
    ensures !Contains(inPath, g.native) ==>
      && out.url == joined && out.accept == old(out.accept)
      && out.contentLength == old(out.contentLength) && out.body == old(out.body)
    ensures Contains(inPath, g.native) ==>
      && out.url == Url(Forward(g, joined.path), Forward(g, joined.rawPath))
      && out.accept == "application/json" && out.contentLength == -1
      && out.body == Piped(RewrittenLines(g, inBody, eof))
      && (Concat(out.body.chunks) == StripLineEnds(Forward(g, inBody)) <==> LinesFit(inBody, eof))
  {
    out.url := joined;
    var found := Index(inPath, g.native);
    if found == -1 {
      return;
    }
    var path := ReplaceAllLoop(out.url.path, g.native, g.crd);
    out.url := out.url.(path := path);
    var rawPath := ReplaceAllLoop(out.url.rawPath, g.native, g.crd);
    out.url := out.url.(rawPath := rawPath);
    out.accept := "application/json";
    out.contentLength := -1;
    var chunks := StreamBody(g, inBody, eof);
    out.body := Piped(chunks);
  }

  /** The response hook. The body is what reading it yields; it is exchanged for
      the rewritten one even when the read ends in an error. */
  method ModifyResponse(g: Groups, requestPath: Bytes, response: Response, readError: bool)
    returns (failed: bool)
    requires g.Valid()
    modifies response
    ensures !Contains(requestPath, g.crd) ==>
      && !failed && response.body == old(response.body)
      && response.contentLength == old(response.contentLength)
      && response.contentLengthHeader == old(response.contentLengthHeader)
    ensures Contains(requestPath, g.crd) ==>
      && failed == readError && response.body == Backward(g, old(response.body))
      && response.contentLength == response.contentLengthHeader == |response.body|
      && response.contentLength == |old(response.body)| - 2 * Count(old(response.body), g.crd)
      && !Contains(response.body, g.crd)
  {
    var found := Index(requestPath, g.crd);
    if found == -1 {
      return false;
    }
    BackwardConserves(g, response.body);
    var b := ReplaceAllLoop(response.body, g.crd, g.native);
    response.body := b;
    response.contentLength := |b|;
    response.contentLengthHeader := |b|;
    failed := readError;
  }
}
