/**
 The writer that keeps a slow non-streaming JSON response alive (controller/non_stream_keepalive.go).

 A heartbeat goroutine and the application share the writer; a mutex makes every method atomic, so an
 execution is a sequence of calls, heartbeats among them at any place.  Header keys are canonical and
 writes to the connection succeed.
 */
module KeepAliveWriter {
  import opened Wrappers

  type Header = map<string, seq<string>>

  // ----- the underlying response writer -----

  /** What the client receives first: fixed once sent. */
  datatype Head = Head(status: int, header: Header)

  /** Status and header may change until the head is sent; sending happens at the first write or flush. */
  datatype Response = Response(header: Header, status: int, sent: Option<Head>, body: string)
  {
    function SendHead(): Response {
      if sent.Some? then this else this.(sent := Some(Head(status, header)))
    }

    function Append(data: string): Response {
      var r := SendHead();
      r.(body := r.body + data)
    }

    function SetStatus(code: int): Response {
      if code > 0 && sent.None? then this.(status := code) else this
    }
  }

  datatype Call =
    | Put(key: string, values: seq<string>)   // through Header()
    | Delete(key: string)                     // through Header()
    | Write(data: string)                     // Write and WriteString
    | WriteHeader(code: int)
    | WriteHeaderNow
    | Flush
    | Beat                                    // writeKeepAlive, from the heartbeat goroutine

  function EditHeader(h: Header, call: Call): Header {
    match call
    case Put(key, values) => h[key := values]
    case Delete(key) => h - {key}
    case _ => h
  }

  /** The same calls on a writer that is not wrapped. */
  function Direct(r: Response, call: Call): Response {
    match call
    case Put(_, _) => r.(header := EditHeader(r.header, call))
    case Delete(_) => r.(header := EditHeader(r.header, call))
    case Write(data) => r.Append(data)
    case WriteHeader(code) => r.SetStatus(code)
    case WriteHeaderNow => r.SendHead()
    case Flush => r.SendHead()
    case Beat => r
  }

  // ----- the wrapped writer -----

  datatype State = State(inner: Response, header: Header, applicationBody: bool, keepAliveStarted: bool)
  {
    /** The application takes over: its headers replace the underlying ones unless a heartbeat sent them. */
    function Commit(): State {
      State(if keepAliveStarted then inner else inner.(header := header), header, true, keepAliveStarted)
    }
  }

  function KeepAliveHeader(h: Header): Header {
    h["Content-Type" := ["application/json"]]
     ["Cache-Control" := ["no-cache, no-transform"]]
     ["X-Accel-Buffering" := ["no"]]
     ["X-New-Api-Non-Stream-Keepalive" := ["active"]]
    - {"Content-Length"}
  }

  function Heartbeat(s: State): State {
    if s.applicationBody then s
    else
      var inner := if s.keepAliveStarted then s.inner else s.inner.(header := KeepAliveHeader(s.inner.header));
      State(inner.Append("\n").SendHead(), s.header, false, true)
  }

  function Next(s: State, call: Call): State {
    match call
    case Put(_, _) => s.(header := EditHeader(s.header, call))
    case Delete(_) => s.(header := EditHeader(s.header, call))
    case Write(data) => var t := s.Commit(); t.(inner := t.inner.Append(data))
    case WriteHeader(code) =>
      if s.keepAliveStarted then s else var t := s.Commit(); t.(inner := t.inner.SetStatus(code))
    case WriteHeaderNow => var t := s.Commit(); t.(inner := t.inner.SendHead())
    case Flush => var t := s.Commit(); t.(inner := t.inner.SendHead())
    case Beat => Heartbeat(s)
  }

  class NonStreamKeepAliveWriter {
    var inner: Response
    var header: Header
    var applicationBody: bool
    var keepAliveStarted: bool

    function Now(): State
      reads this
    {
      State(inner, header, applicationBody, keepAliveStarted)
    }

    constructor (original: Response)
      ensures Now() == Wrap(original)
    {
      inner, header, applicationBody, keepAliveStarted := original, original.header, false, false;
    }

    /** `replaceHeader` on the underlying header map. */
    method ReplaceHeader(source: Header)
      modifies this`inner
      ensures inner == old(inner).(header := source)
    {
      var destination := inner.header;
      while destination != map[]
        decreases |destination|
      {
        var key :| key in destination;
        assert (destination - {key}).Keys == destination.Keys - {key};
        destination := destination - {key};
      }
      var keys := source.Keys;
      while keys != {}
        invariant keys <= source.Keys
        invariant destination == map k | k in source && k !in keys :: source[k]
      {
        var key :| key in keys;
        destination := destination[key := source[key]];
        keys := keys - {key};
      }
      inner := inner.(header := destination);
    }

    method CommitApplicationHeader()
      modifies this`inner
      ensures inner == if keepAliveStarted then old(inner) else old(inner).(header := header)
    {
      if !keepAliveStarted { ReplaceHeader(header); }
    }

    method WriteData(data: string)
      modifies this
      ensures Now() == Next(old(Now()), Write(data))
    {
      applicationBody := true;
      CommitApplicationHeader();
      inner := inner.Append(data);
    }

    method WriteStatus(code: int)
      modifies this
      ensures Now() == Next(old(Now()), WriteHeader(code))
    {
      if keepAliveStarted { return; }
      applicationBody := true;
      CommitApplicationHeader();
      inner := inner.SetStatus(code);
    }

    method WriteStatusNow()
      modifies this
      ensures Now() == Next(old(Now()), WriteHeaderNow)
    {
      applicationBody := true;
      CommitApplicationHeader();
      inner := inner.SendHead();
    }

    method FlushNow()
      modifies this
      ensures Now() == Next(old(Now()), Flush)
    {
      applicationBody := true;
      CommitApplicationHeader();
      inner := inner.SendHead();
    }

    method WriteKeepAlive()
      modifies this
      ensures Now() == Next(old(Now()), Beat)
    {
      if applicationBody { return; }
      if !keepAliveStarted {
        var h := inner.header;
        h := h["Content-Type" := ["application/json"]];
        h := h["Cache-Control" := ["no-cache, no-transform"]];
        h := h["X-Accel-Buffering" := ["no"]];
        h := h["X-New-Api-Non-Stream-Keepalive" := ["active"]];
        h := h - {"Content-Length"};
        inner := inner.(header := h);
        keepAliveStarted := true;
      }
      inner := inner.Append("\n");
      inner := inner.SendHead();
    }
  }

  // ----- runs -----

  /** The wrapper as `startNonStreamJSONKeepAlive` installs it. */
  function Wrap(original: Response): State {
    State(original, original.header, false, false)
  }

  function RunWrapped(calls: seq<Call>, original: Response): State {
    if calls == [] then Wrap(original)
    else Next(RunWrapped(calls[..|calls| - 1], original), calls[|calls| - 1])
  }

  function RunDirect(calls: seq<Call>, original: Response): Response {
    if calls == [] then original
    else Direct(RunDirect(calls[..|calls| - 1], original), calls[|calls| - 1])
  }

  ghost predicate Fresh(r: Response) {
    r.sent.None? && r.body == ""
  }

  /** Everything the application wrote, in order. */
  ghost function AppBytes(calls: seq<Call>): string {
    if calls == [] then ""
    else
      var last := calls[|calls| - 1];
      AppBytes(calls[..|calls| - 1]) + if last.Write? then last.data else ""
  }

  ghost function Newlines(k: nat): string {
    seq(k, _ => '\n')
  }

  // ----- the body is still the application's JSON -----

  ghost predicate Takes(call: Call) {
    call.Write? || call.WriteHeader? || call.WriteHeaderNow? || call.Flush?
  }

  lemma NewlinesNext(k: nat)
    ensures Newlines(k) + "\n" == Newlines(k + 1)
  {
  }

  /** The application has written or flushed something, or set a status before any heartbeat was written. */
  ghost predicate TookOver(calls: seq<Call>) {
    calls != [] &&
    var before, last := calls[..|calls| - 1], calls[|calls| - 1];
    TookOver(before) || Sends(last) || (last.WriteHeader? && !BeatFirst(before))
  }

  /** A heartbeat came before the application took over. */
  ghost predicate BeatFirst(calls: seq<Call>) {
    calls != [] &&
    var before, last := calls[..|calls| - 1], calls[|calls| - 1];
    BeatFirst(before) || (last.Beat? && !TookOver(before))
  }

  /** The writer's two flags tell just that. */
  lemma {:induction false} FlagsExactly(calls: seq<Call>, original: Response)
    ensures RunWrapped(calls, original).applicationBody == TookOver(calls)
    ensures RunWrapped(calls, original).keepAliveStarted == BeatFirst(calls)
  {
    if calls != [] {
      FlagsExactly(calls[..|calls| - 1], original);
    }
  }

  /** The heartbeats before the application took over. */
  ghost function Beats(calls: seq<Call>): nat {
    if calls == [] then 0
    else
      var before := calls[..|calls| - 1];
      Beats(before) + if calls[|calls| - 1].Beat? && !TookOver(before) then 1 else 0
  }

  /** While the application has not taken over, it has written nothing. */
  lemma {:induction false} NothingWrittenYet(calls: seq<Call>, original: Response)
    ensures !RunWrapped(calls, original).applicationBody ==> AppBytes(calls) == ""
  {
    if calls != [] {
      NothingWrittenYet(calls[..|calls| - 1], original);
    }
  }

  /** For every interleaving: the heartbeats' newlines, then exactly the application's bytes. */
  lemma {:induction false} BodyIsPaddedJson(calls: seq<Call>, original: Response)
    requires Fresh(original)
    ensures RunWrapped(calls, original).inner.body == Newlines(Beats(calls)) + AppBytes(calls)
  {
    if calls != [] {
      var before, call := calls[..|calls| - 1], calls[|calls| - 1];
      var k, app := Beats(before), AppBytes(before);
      BodyIsPaddedJson(before, original);
      NothingWrittenYet(before, original);
      FlagsExactly(before, original);
      NewlinesNext(k);
      assert app + "" == app;
      if call.Write? {
        assert (Newlines(k) + app) + call.data == Newlines(k) + (app + call.data);
      } else if call.Beat? && !RunWrapped(before, original).applicationBody {
        assert Newlines(k) + app == Newlines(k) && Newlines(k + 1) + app == Newlines(k + 1);
      }
    }
  }

  /** Insignificant whitespace before a JSON text, section 2 of RFC 8259. */
  ghost function SkipWhitespace(text: string): string {
    if text != "" && text[0] in {' ', '\t', '\n', '\r'} then SkipWhitespace(text[1..]) else text
  }

  lemma {:induction false} SkipNewlines(k: nat, text: string)
    ensures SkipWhitespace(Newlines(k) + text) == SkipWhitespace(text)
  {
    if k == 0 {
      assert Newlines(k) + text == text;
    } else {
      assert (Newlines(k) + text)[1..] == Newlines(k - 1) + text;
      SkipNewlines(k - 1, text);
    }
  }

  /** So the client reads the same JSON text, however the two goroutines interleave. */
  lemma SameJsonText(calls: seq<Call>, original: Response)
    requires Fresh(original)
    ensures SkipWhitespace(RunWrapped(calls, original).inner.body) == SkipWhitespace(AppBytes(calls))
  {
    BodyIsPaddedJson(calls, original);
    SkipNewlines(Beats(calls), AppBytes(calls));
  }

  // ----- the writer underneath -----

  /** The status last asked for before anything was sent. */
  ghost function AskedStatus(calls: seq<Call>, status: int): int {
    if calls == [] then status
    else
      var before, last := calls[..|calls| - 1], calls[|calls| - 1];
      if last.WriteHeader? && last.code > 0 && SentHeader(before, map[]).None? then last.code else AskedStatus(before, status)
  }

  /** The header as it was when the first bytes were sent, if any were. */
  ghost function SentHeader(calls: seq<Call>, h: Header): Option<Header> {
    if calls == [] then None
    else
      var before, last := calls[..|calls| - 1], calls[|calls| - 1];
      if SentHeader(before, h).Some? then SentHeader(before, h)
      else if Sends(last) then Some(EditedHeader(before, h)) else None
  }

  lemma {:induction false} SentAnyway(calls: seq<Call>, h: Header, g: Header)
    ensures SentHeader(calls, h).Some? == SentHeader(calls, g).Some?
  {
    if calls != [] {
      SentAnyway(calls[..|calls| - 1], h, g);
    }
  }

  /** What the bare writer delivers: all bytes in order, with the status and header of the moment of the first send. */
  lemma {:induction false} BareWriter(calls: seq<Call>, original: Response)
    requires Fresh(original)
    ensures var r := RunDirect(calls, original); var sent := SentHeader(calls, original.header);
            && r.body == AppBytes(calls) && r.header == EditedHeader(calls, original.header)
            && r.status == AskedStatus(calls, original.status)
            && r.sent == if sent.Some? then Some(Head(r.status, sent.value)) else None
  {
    if calls != [] {
      var before := calls[..|calls| - 1];
      BareWriter(before, original);
      SentAnyway(before, original.header, map[]);
      assert AppBytes(before) + "" == AppBytes(before);
    }
  }

  // ----- fast responses are untouched -----

  /** No heartbeat comes before the application's first write, status or flush. */
  ghost predicate NoEarlyBeat(calls: seq<Call>) {
    forall i :: 0 <= i < |calls| && calls[i].Beat? ==> exists j :: 0 <= j < i && Takes(calls[j])
  }

  lemma {:induction false} TakenOver(calls: seq<Call>, original: Response, j: nat)
    requires j < |calls| && Takes(calls[j]) && !RunWrapped(calls, original).keepAliveStarted
    ensures RunWrapped(calls, original).applicationBody
  {
    if j < |calls| - 1 {
      TakenOver(calls[..|calls| - 1], original, j);
    }
  }

  lemma NoEarlyBeatPrefix(calls: seq<Call>)
    requires NoEarlyBeat(calls) && calls != []
    ensures NoEarlyBeat(calls[..|calls| - 1])
  {
    var before := calls[..|calls| - 1];
    forall i | 0 <= i < |before| && before[i].Beat? ensures exists j :: 0 <= j < i && Takes(before[j]) {
      var j :| 0 <= j < i && Takes(calls[j]);
      assert Takes(before[j]);
    }
  }

  /** Equal but for header edits that have not reached the underlying writer yet. */
  ghost predicate Mirrors(s: State, r: Response) {
    && s.header == r.header && s.inner.status == r.status && s.inner.sent == r.sent && s.inner.body == r.body
    && !s.keepAliveStarted
  }

  lemma {:induction false} FastRunMirrors(calls: seq<Call>, original: Response)
    requires NoEarlyBeat(calls)
    ensures Mirrors(RunWrapped(calls, original), RunDirect(calls, original))
  {
    if calls != [] {
      var before, call := calls[..|calls| - 1], calls[|calls| - 1];
      NoEarlyBeatPrefix(calls);
      FastRunMirrors(before, original);
      if call.Beat? {
        var j :| 0 <= j < |calls| - 1 && Takes(calls[j]);
        TakenOver(before, original, j);
      }
    }
  }

  /** At the end of the request the server sends the underlying writer's head if no call has. */
  function Finished(r: Response): (Head, string) {
    (r.SendHead().sent.value, r.body)
  }

  /** The header as the application has edited it. */
  ghost function EditedHeader(calls: seq<Call>, h: Header): Header {
    if calls == [] then h else EditHeader(EditedHeader(calls[..|calls| - 1], h), calls[|calls| - 1])
  }

  /** The header as of the last call that hands it to the underlying writer. */
  ghost function CommittedHeader(calls: seq<Call>, h: Header): Header {
    if calls == [] then h
    else if Takes(calls[|calls| - 1]) then EditedHeader(calls, h)
    else CommittedHeader(calls[..|calls| - 1], h)
  }

  ghost predicate Sends(call: Call) {
    Takes(call) && !call.WriteHeader?
  }

  lemma {:induction false} FastRunHeaders(calls: seq<Call>, original: Response)
    requires NoEarlyBeat(calls)
    ensures RunWrapped(calls, original).header == EditedHeader(calls, original.header)
    ensures RunWrapped(calls, original).inner.header == CommittedHeader(calls, original.header)
  {
    if calls != [] {
      var before, call := calls[..|calls| - 1], calls[|calls| - 1];
      NoEarlyBeatPrefix(calls);
      FastRunHeaders(before, original);
      FastRunMirrors(before, original);
      if call.Beat? {
        var j :| 0 <= j < |calls| - 1 && Takes(calls[j]);
        TakenOver(before, original, j);
      }
    }
  }

  lemma {:induction false} SentMeansSends(calls: seq<Call>, original: Response)
    requires original.sent.None?
    ensures RunDirect(calls, original).sent.Some? <==> exists i :: 0 <= i < |calls| && Sends(calls[i])
  {
    if calls != [] {
      var before, call := calls[..|calls| - 1], calls[|calls| - 1];
      SentMeansSends(before, original);
      if exists i :: 0 <= i < |before| && Sends(before[i]) {
        var i :| 0 <= i < |before| && Sends(before[i]);
        assert Sends(calls[i]);
      }
      if exists i :: 0 <= i < |calls| && Sends(calls[i]) {
        var i :| 0 <= i < |calls| && Sends(calls[i]);
        assert i == |calls| - 1 || Sends(before[i]);
      }
    }
  }

  /**
   Without an early heartbeat the client sees what the bare writer would send -- status, headers and body
   -- exactly when the application writes or flushes something, or leaves the headers as they were at its
   last WriteHeader.  (Header edits after that, with nothing written, never reach the wrapped writer.)
   */
  lemma FastResponseUnchanged(calls: seq<Call>, original: Response)
    requires NoEarlyBeat(calls) && Fresh(original)
    ensures Finished(RunWrapped(calls, original).inner) == Finished(RunDirect(calls, original))
            <==> || (exists i :: 0 <= i < |calls| && Sends(calls[i]))
                 || EditedHeader(calls, original.header) == CommittedHeader(calls, original.header)
  {
    FastRunMirrors(calls, original);
    FastRunHeaders(calls, original);
    SentMeansSends(calls, original);
  }

  // ----- slow responses -----

  lemma {:induction false} BeforeTakingOver(calls: seq<Call>, original: Response)
    requires forall i :: 0 <= i < |calls| ==> !Takes(calls[i]) && !calls[i].Beat?
    ensures var s := RunWrapped(calls, original);
            s.inner == original && !s.applicationBody && !s.keepAliveStarted
  {
    if calls != [] {
      BeforeTakingOver(calls[..|calls| - 1], original);
    }
  }

  ghost predicate Pinned(s: State, original: Response) {
    s.keepAliveStarted && s.inner.sent == Some(Head(original.status, KeepAliveHeader(original.header)))
  }

  lemma {:induction false} StaysPinned(calls: seq<Call>, i: nat, original: Response)
    requires i <= |calls| && Pinned(RunWrapped(calls[..i], original), original)
    ensures Pinned(RunWrapped(calls, original), original)
    decreases |calls| - i
  {
    if i < |calls| {
      assert calls[..i + 1][..i] == calls[..i];
      StaysPinned(calls, i + 1, original);
    } else {
      assert calls[..i] == calls;
    }
  }

  /** The header that a first heartbeat sends: four values set, the length withdrawn, everything else as it was. */
  lemma KeepAliveHeaderMeaning(h: Header, key: string)
    ensures var k := KeepAliveHeader(h);
            if key == "Content-Length" then key !in k
            else if key == "Content-Type" then key in k && k[key] == ["application/json"]
            else if key == "Cache-Control" then key in k && k[key] == ["no-cache, no-transform"]
            else if key == "X-Accel-Buffering" then key in k && k[key] == ["no"]
            else if key == "X-New-Api-Non-Stream-Keepalive" then key in k && k[key] == ["active"]
            else (key in k <==> key in h) && (key in h ==> k[key] == h[key])
  {
  }

  /**
   Once a heartbeat comes first, the client gets the initial status (200) with the keep-alive headers,
   whatever status and headers the application sets before or afterwards.
   */
  lemma SlowResponseIsPinned(calls: seq<Call>, first: nat, original: Response)
    requires Fresh(original) && first < |calls| && calls[first].Beat?
    requires forall i :: 0 <= i < first ==> !Takes(calls[i]) && !calls[i].Beat?
    ensures Finished(RunWrapped(calls, original).inner).0 == Head(original.status, KeepAliveHeader(original.header))
  {
    BeforeTakingOver(calls[..first], original);
    assert calls[..first + 1][..first] == calls[..first];
    StaysPinned(calls, first + 1, original);
  }
}
