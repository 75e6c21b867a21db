/**
 * The actions a client calls: `echo`, and `exec_python_code`, which runs a
 * snippet, publishes the scratch files its result names, reports to the
 * monitor, and answers with the rewritten result.
 */
module Actions {
  import opened Common
  import opened Paths
  import opened FileStore
  import opened Translate
  import opened Values
  import opened Publish
  import opened PublishProps
  import opened Html

  /** The dictionary an action returns: `{'body': ..., 'content-type': ...}`. */
  datatype Response = Response(body: string, contentType: string)

  const TextPlain := "text/plain"
  const TextError := "text/error"
  const TextUriList := "text/uri-list"

  /** The name the snippet must bind its result to. */
  const RetvalName := "__retval__"

  /** `echo(msg)`: the message comes back as plain text. */
  function Echo(msg: string): (r: Response)
    ensures r.body == msg && r.contentType == TextPlain
  {
    Response(msg, TextPlain)
  }

  /** What `exec(code, globals)` leaves behind: the final globals, or the traceback of what it raised. */
  datatype ExecOutcome = Finished(namespace: map<string, Value>) | Raised(trace: string)

  /**
   * The interpreter services the actions rely on but do not define:
   * `exec` on a fresh copy of the injected globals, `str`, and
   * `ast.literal_eval` (None when it raises), plus the traceback text
   * printed when `__retval__` was never bound.
   */
  datatype Runtime = Runtime(
    exec: string -> ExecOutcome,
    str: Value -> string,
    literalEval: string -> Option<Value>,
    missingRetvalTrace: string)

  /**
   * `_exec_python_code(code)`: plain text holding `str(__retval__)` when
   * the snippet ran and bound it, an error response holding the traceback
   * otherwise.
   */
  function ExecPlain(rt: Runtime, code: string): (r: Response)
    ensures r.contentType == TextPlain || r.contentType == TextError
    ensures r.contentType == TextPlain <==> rt.exec(code).Finished? && RetvalName in rt.exec(code).namespace
    ensures r.contentType == TextPlain ==> r.body == rt.str(rt.exec(code).namespace[RetvalName])
    ensures rt.exec(code).Raised? ==> r.body == rt.exec(code).trace
    ensures rt.exec(code).Finished? && RetvalName !in rt.exec(code).namespace ==> r.body == rt.missingRetvalTrace
  {
    match rt.exec(code)
    case Raised(trace) => Response(trace, TextError)
    case Finished(ns) =>
      if RetvalName in ns then Response(rt.str(ns[RetvalName]), TextPlain)
      else Response(rt.missingRetvalTrace, TextError)
  }

  /** A response as the dictionary value `str(retval)` renders. */
  function ResponseValue(r: Response): Value
  {
    Dict([(Str("body"), Str(r.body)), (Str("content-type"), Str(r.contentType))])
  }

  /** `ast.literal_eval(body)`, falling back to the body itself as a string. */
  function Parse(rt: Runtime, body: string): Value
  {
    match rt.literalEval(body)
    case Some(v) => v
    case None => Str(body)
  }

  /* ---------- the monitor page ---------- */

  const BoxOpen := "<div style=\"border: solid 1px grey\"><pre>"
  const BoxClose := "</pre></div>"

  /** The link line of one published pair: the raw URL as target, the escaped URL as text. */
  function LinkHtml(url: string): string
  {
    "<br><a href=" + url + ">" + Escape(url) + "</a><hr>"
  }

  /** One pair of the page: its link, then the image itself or the escaped preview in a box. */
  function PairHtml(p: Pair): string
  {
    LinkHtml(p.url) + MediaHtml(p)
  }

  function MediaHtml(p: Pair): string
  {
    if EndsWith(p.url, ".png") then "<img src=" + p.url + ">"
    else BoxOpen + Escape(p.preview) + BoxClose
  }

  /**
   * The page sent to the monitor: the rendered result, then one section
   * per published pair, in list order.
   */
  function MonitorHtml(rendered: string, ps: seq<Pair>): string
  {
    if ps == [] then "<pre>" + rendered + "</pre>"
    else MonitorHtml(rendered, ps[..|ps| - 1]) + PairHtml(ps[|ps| - 1])
  }

  /** The loop that builds the monitor page. */
  method BuildMonitorHtml(rendered: string, ps: seq<Pair>) returns (s: string)
    ensures s == MonitorHtml(rendered, ps)
  {
    s := "<pre>" + rendered + "</pre>";
    var i := 0;
    while i < |ps|
      invariant 0 <= i <= |ps|
      invariant s == MonitorHtml(rendered, ps[..i])
    {
      assert ps[..i + 1][..i] == ps[..i];
      s := AppendSection(s, ps[i]);
      i := i + 1;
    }
    assert ps[..i] == ps;
  }

  /** One turn of the loop: the link line, then the image or the preview box. */
  method AppendSection(s0: string, p: Pair) returns (s: string)
    ensures s == s0 + PairHtml(p)
  {
    var link := "<br><a href=" + p.url + ">" + Escape(p.url) + "</a><hr>";
    s := s0 + link;
    var media;
    if EndsWith(p.url, ".png") {
      media := "<img src=" + p.url + ">";
    } else {
      media := "<div style=\"border: solid 1px grey\"><pre>" + Escape(p.preview) + "</pre></div>";
    }
    assert link == LinkHtml(p.url) && media == MediaHtml(p);
    s := s + media;
  }

  /** The page opens with the rendered result, and is nothing more when no pair was published. */
  lemma {:induction false} MonitorHtmlStarts(rendered: string, ps: seq<Pair>)
    ensures StartsWith(MonitorHtml(rendered, ps), "<pre>" + rendered + "</pre>")
    ensures ps == [] ==> MonitorHtml(rendered, ps) == "<pre>" + rendered + "</pre>"
    decreases |ps|
  {
    if ps != [] {
      var head := "<pre>" + rendered + "</pre>";
      var front := MonitorHtml(rendered, ps[..|ps| - 1]);
      MonitorHtmlStarts(rendered, ps[..|ps| - 1]);
      assert (front + PairHtml(ps[|ps| - 1]))[..|head|] == front[..|head|];
    }
  }

  /** The link text is markup-free and decodes to the URL. */
  lemma LinkTextSafe(url: string)
    ensures forall c :: c in Escape(url) && IsMarkup(c) ==> false
    ensures Unescape(Escape(url)) == url
  {
    EscapeHasNoMarkup(url);
    EscapeRoundTrip(url);
  }

  /** An image section shows the image, whatever the preview held. */
  lemma PngIgnoresPreview(a: string, b: string, url: string)
    requires EndsWith(url, ".png")
    ensures PairHtml(Pair(a, url)) == PairHtml(Pair(b, url))
  {
  }

  /**
   * Any other section boxes a markup-free text that decodes to the
   * preview, so two different previews give two different sections.
   */
  lemma PreviewBoxSafe(p: Pair)
    requires !EndsWith(p.url, ".png")
    ensures exists e ::
              && PairHtml(p) == LinkHtml(p.url) + BoxOpen + e + BoxClose
              && (forall c :: c in e && IsMarkup(c) ==> false)
              && Unescape(e) == p.preview
  {
    var e := Escape(p.preview);
    EscapeHasNoMarkup(p.preview);
    EscapeRoundTrip(p.preview);
    assert PairHtml(p) == LinkHtml(p.url) + BoxOpen + e + BoxClose;
  }

  lemma PreviewShown(a: string, b: string, url: string)
    requires !EndsWith(url, ".png")
    requires PairHtml(Pair(a, url)) == PairHtml(Pair(b, url))
    ensures a == b
  {
    var l := LinkHtml(url);
    var ma, mb := MediaHtml(Pair(a, url)), MediaHtml(Pair(b, url));
    assert ma == (l + ma)[|l|..] && mb == (l + mb)[|l|..];
    var ea, eb := Escape(a), Escape(b);
    assert ma == BoxOpen + ea + BoxClose && mb == BoxOpen + eb + BoxClose;
    assert |ea| == |eb|;
    assert ea == ma[|BoxOpen|..|BoxOpen| + |ea|];
    assert eb == mb[|BoxOpen|..|BoxOpen| + |eb|];
    EscapeInjective(a, b);
  }

  /* ---------- exec_python_code ---------- */

  /** One `_update_monitor(uid, field, value)` call. */
  datatype Notice = Notice(uid: string, field: string, value: string)

  /** What a call produces: the answer or the exception it re-raises, the monitor calls, the publisher's state. */
  datatype ExecRun = ExecRun(result: Result<Response, PathError>, notices: seq<Notice>, state: PubState)

  function RunUid(runId: string): string
  {
    "exec_python_code :" + runId
  }

  /** The two monitor calls made before the snippet runs. */
  function Started(runId: string, code: string): seq<Notice>
  {
    [Notice(RunUid(runId), "code", code), Notice(RunUid(runId), "retval", "Running...")]
  }

  /**
   * `exec_python_code(code)` from publisher state `st`, with `runId` the
   * text of the `uuid4` drawn for the monitor: an error response is
   * reported and returned as it is; otherwise the result is parsed,
   * published, rendered, reported with its page, and returned as a URI
   * list. A publication error is re-raised after the files already handled
   * have been moved.
   */
  function ExecPythonCodeRun(cfg: Config, tokens: nat -> string, rt: Runtime, st: PubState, code: string, runId: string): ExecRun
  {
    var retval := ExecPlain(rt, code);
    if retval.contentType == TextError then
      ExecRun(Success(retval), Started(runId, code) + [Notice(RunUid(runId), "retval", rt.str(ResponseValue(retval)))], st)
    else
      var o := PublishValue(cfg, tokens, PubState(st.fs, st.drawn, []), Parse(rt, retval.body));
      if o.result.Failure? then ExecRun(Failure(o.result.error), Started(runId, code), o.state)
      else
        var rendered := rt.str(o.result.value);
        ExecRun(Success(Response(rendered, TextUriList)),
                Started(runId, code) + [Notice(RunUid(runId), "retval", MonitorHtml(rendered, o.state.published))],
                o.state)
  }

  /** `exec_python_code`, over a publisher that holds the filesystem and the token stream. */
  method ExecPythonCode(p: Publisher, rt: Runtime, code: string, runId: string) returns (r: Result<Response, PathError>, notices: seq<Notice>)
    modifies p
    ensures ExecRun(r, notices, p.State()) == ExecPythonCodeRun(p.cfg, p.tokens, rt, old(p.State()), code, runId)
  {
    ghost var run := ExecPythonCodeRun(p.cfg, p.tokens, rt, p.State(), code, runId);
    var uid := "exec_python_code :" + runId;
    notices := [Notice(uid, "code", code)];
    notices := notices + [Notice(uid, "retval", "Running...")];
    assert notices == Started(runId, code);
    var retval := ExecPlain(rt, code);
    if retval.contentType == TextError {
      notices := notices + [Notice(uid, "retval", rt.str(ResponseValue(retval)))];
      r := Success(retval);
      assert r == run.result && notices == run.notices && p.State() == run.state;
      return;
    }
    var data := Parse(rt, retval.body);
    var published, pairs := p.PublishTmpPaths(data);
    if published.Failure? {
      r := Failure(published.error);
      assert r == run.result && notices == run.notices && p.State() == run.state;
      return;
    }
    var rendered := rt.str(published.value);
    var page := BuildMonitorHtml(rendered, pairs);
    notices := notices + [Notice(uid, "retval", page)];
    r := Success(Response(rendered, TextUriList));
    assert r == run.result && notices == run.notices && p.State() == run.state;
  }

  /**
   * An error response short-circuits: it is returned unchanged, reported
   * as the run's result, and nothing is published.
   */
  lemma ErrorShortCircuits(cfg: Config, tokens: nat -> string, rt: Runtime, st: PubState, code: string, runId: string)
    requires !(rt.exec(code).Finished? && RetvalName in rt.exec(code).namespace)
    ensures var run := ExecPythonCodeRun(cfg, tokens, rt, st, code, runId);
            && run.result == Success(ExecPlain(rt, code))
            && run.result.value.contentType == TextError
            && run.state == st
            && |run.notices| == 3
            && run.notices[..2] == Started(runId, code)
            && run.notices[2] == Notice(RunUid(runId), "retval", rt.str(ResponseValue(ExecPlain(rt, code))))
  {
  }

  /**
   * The content type of an answer: text/error exactly when the snippet
   * did not produce `__retval__`, text/uri-list otherwise; never plain text.
   */
  lemma AnswerContentType(cfg: Config, tokens: nat -> string, rt: Runtime, st: PubState, code: string, runId: string)
    requires ExecPythonCodeRun(cfg, tokens, rt, st, code, runId).result.Success?
    ensures var a := ExecPythonCodeRun(cfg, tokens, rt, st, code, runId).result.value;
            && (a.contentType == TextError || a.contentType == TextUriList)
            && (a.contentType == TextUriList <==> rt.exec(code).Finished? && RetvalName in rt.exec(code).namespace)
  {
  }

  /** When the snippet produced `__retval__`, the answer and the final state are those of publishing its parsed text. */
  lemma RunOfRetval(cfg: Config, tokens: nat -> string, rt: Runtime, st: PubState, code: string, runId: string)
    requires rt.exec(code).Finished? && RetvalName in rt.exec(code).namespace
    ensures var data := Parse(rt, rt.str(rt.exec(code).namespace[RetvalName]));
            var o := PublishValue(cfg, tokens, PubState(st.fs, st.drawn, []), data);
            var run := ExecPythonCodeRun(cfg, tokens, rt, st, code, runId);
            && run.state == o.state
            && run.result == if o.result.Failure? then Failure(o.result.error) else Success(Response(rt.str(o.result.value), TextUriList))
  {
    assert ExecPlain(rt, code).body == rt.str(rt.exec(code).namespace[RetvalName]);
  }

  /**
   * A run that publishes: the answer is the rendering of the rewritten
   * result, which keeps the shape of the parsed one, and one token and one
   * pair per scratch path of the parsed result, in visit order.
   */
  lemma PublishedRun(cfg: Config, tokens: nat -> string, rt: Runtime, st: PubState, code: string, runId: string)
    requires rt.exec(code).Finished? && RetvalName in rt.exec(code).namespace
    requires ExecPythonCodeRun(cfg, tokens, rt, st, code, runId).result.Success?
    ensures var run := ExecPythonCodeRun(cfg, tokens, rt, st, code, runId);
            var data := Parse(rt, rt.str(rt.exec(code).namespace[RetvalName]));
            var o := PublishValue(cfg, tokens, PubState(st.fs, st.drawn, []), data);
            && o.result.Success?
            && run.result.value == Response(rt.str(o.result.value), TextUriList)
            && run.state == o.state
            && SameShape(data, o.result.value)
            && o.state.drawn == st.drawn + |TmpPaths(data)|
            && Urls(o.state.published) == BuildUrls(UrlFor(cfg, tokens), st.drawn, TmpPaths(data))
  {
    var data := Parse(rt, rt.str(rt.exec(code).namespace[RetvalName]));
    var st0 := PubState(st.fs, st.drawn, []);
    RunOfRetval(cfg, tokens, rt, st, code, runId);
    ValueShape(cfg, tokens, st0, data);
    ValueAccounts(cfg, tokens, st0, data);
    var ps := PublishValue(cfg, tokens, st0, data).state.published;
    assert ps[|st0.published|..] == ps;
  }

  /** The page reported last shows the rendered answer and lists exactly the pairs of this run. */
  lemma PublishedRunReport(cfg: Config, tokens: nat -> string, rt: Runtime, st: PubState, code: string, runId: string)
    requires rt.exec(code).Finished? && RetvalName in rt.exec(code).namespace
    requires ExecPythonCodeRun(cfg, tokens, rt, st, code, runId).result.Success?
    ensures var run := ExecPythonCodeRun(cfg, tokens, rt, st, code, runId);
            run.notices == Started(runId, code) + [Notice(RunUid(runId), "retval", MonitorHtml(run.result.value.body, run.state.published))]
  {
    assert ExecPlain(rt, code).body == rt.str(rt.exec(code).namespace[RetvalName]);
  }

  /**
   * A result that names no scratch path is answered with its own
   * rendering, moves nothing, and the page shows only that rendering.
   */
  lemma NothingToPublish(cfg: Config, tokens: nat -> string, rt: Runtime, st: PubState, code: string, runId: string)
    requires rt.exec(code).Finished? && RetvalName in rt.exec(code).namespace
    requires var data := Parse(rt, rt.str(rt.exec(code).namespace[RetvalName]));
             WellFormed(data) && TmpPaths(data) == []
    ensures var run := ExecPythonCodeRun(cfg, tokens, rt, st, code, runId);
            var data := Parse(rt, rt.str(rt.exec(code).namespace[RetvalName]));
            && run.result == Success(Response(rt.str(data), TextUriList))
            && run.state == PubState(st.fs, st.drawn, [])
            && run.notices == Started(runId, code) + [Notice(RunUid(runId), "retval", "<pre>" + rt.str(data) + "</pre>")]
  {
    var data := Parse(rt, rt.str(rt.exec(code).namespace[RetvalName]));
    ValueUnchanged(cfg, tokens, PubState(st.fs, st.drawn, []), data);
    MonitorHtmlStarts(rt.str(data), []);
  }

  /** A publication error is re-raised before the page is reported. */
  lemma PublicationErrorRaised(cfg: Config, tokens: nat -> string, rt: Runtime, st: PubState, code: string, runId: string)
    requires rt.exec(code).Finished? && RetvalName in rt.exec(code).namespace
    requires var data := Parse(rt, rt.str(rt.exec(code).namespace[RetvalName]));
             PublishValue(cfg, tokens, PubState(st.fs, st.drawn, []), data).result.Failure?
    ensures var run := ExecPythonCodeRun(cfg, tokens, rt, st, code, runId);
            && run.result.Failure?
            && run.notices == Started(runId, code)
  {
  }
}
