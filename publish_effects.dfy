/**
 * What a whole walk of `_deep_publish_tmp_paths` does: which string
 * replaces each visited scratch path in the returned value, which paths of
 * the filesystem it may change, and that the files and directories it
 * publishes are gone from /tmp/ afterwards.
 */
module PublishEffects {
  import opened Common
  import opened Paths
  import opened FileStore
  import opened Translate
  import opened Values
  import opened Publish
  import opened PublishProps

  /* ---------- the rewritten strings ---------- */

  /**
   * `ss` with each scratch path replaced by the URL `url` builds for it,
   * tokens numbered in order from `drawn`.
   */
  function Rewritten(url: (nat, string) -> string, drawn: nat, ss: seq<string>): (r: seq<string>)
    ensures |r| == |ss|
  {
    if ss == [] then []
    else
      var front, last := ss[..|ss| - 1], ss[|ss| - 1];
      Rewritten(url, drawn, front) + [if IsScratchPath(last) then url(drawn + |ScratchPaths(front)|, last) else last]
  }

  lemma {:induction false} RewrittenAppend(url: (nat, string) -> string, drawn: nat, a: seq<string>, b: seq<string>)
    ensures Rewritten(url, drawn, a + b) == Rewritten(url, drawn, a) + Rewritten(url, drawn + |ScratchPaths(a)|, b)
    decreases |b|
  {
    if b == [] {
      assert a + b == a;
    } else {
      var n := |b| - 1;
      assert (a + b)[..|a + b| - 1] == a + b[..n];
      assert (a + b)[|a + b| - 1] == b[n];
      RewrittenAppend(url, drawn, a, b[..n]);
      ScratchPathsAppend(a, b[..n]);
    }
  }

  /** Position `j` holds the string itself, or the URL built from the scratch paths' own numbering. */
  lemma {:induction false} RewrittenAt(url: (nat, string) -> string, drawn: nat, ss: seq<string>, j: nat)
    requires j < |ss|
    ensures Rewritten(url, drawn, ss)[j] ==
              if IsScratchPath(ss[j]) then url(drawn + |ScratchPaths(ss[..j])|, ss[j]) else ss[j]
    decreases |ss|
  {
    var n := |ss| - 1;
    if j < n {
      RewrittenAt(url, drawn, ss[..n], j);
      assert ss[..n][j] == ss[j] && ss[..n][..j] == ss[..j];
    }
  }

  /** The URL and token count of a converted scratch string, apart from what it moves. */
  lemma PublishStrUrl(cfg: Config, tokens: nat -> string, st: PubState, s: string)
    requires IsScratchPath(s)
    requires ConvertTmpToSavePath(cfg, st.fs, s, tokens(st.drawn)).Success?
    ensures PublishStr(cfg, tokens, st, s).result == Success(Str(UrlFor(cfg, tokens)(st.drawn, s)))
    ensures PublishStr(cfg, tokens, st, s).state.drawn == st.drawn + 1
  {
    var c := ConvertTmpToSavePath(cfg, st.fs, s, tokens(st.drawn));
    PublishStrMoves(cfg, tokens, st, s);
    assert c.value.1 == PublicName(tokens(st.drawn), Basename(AbsPath(cfg.cwd, s)));
  }

  /** A string step: a scratch path becomes the URL built for it from the next token. */
  lemma StrRewrites(cfg: Config, tokens: nat -> string, st: PubState, s: string)
    requires PublishStr(cfg, tokens, st, s).result.Success?
    ensures var o := PublishStr(cfg, tokens, st, s);
            && Visited(o.result.value) == Rewritten(UrlFor(cfg, tokens), st.drawn, [s])
            && o.state.drawn == st.drawn + |ScratchPaths([s])|
  {
    var o := PublishStr(cfg, tokens, st, s);
    assert [s][..0] == [];
    if IsScratchPath(s) {
      PublishStrUrl(cfg, tokens, st, s);
    }
  }

  /**
   * A walk of a value without sets that completes returns the value whose
   * visited strings are the original ones with every scratch path replaced
   * by the URL built from its own token, in visit order.
   */
  lemma {:induction false} ValueRewrites(cfg: Config, tokens: nat -> string, st: PubState, v: Value)
    requires SetFree(v)
    requires PublishValue(cfg, tokens, st, v).result.Success?
    ensures var o := PublishValue(cfg, tokens, st, v);
            && Visited(o.result.value) == Rewritten(UrlFor(cfg, tokens), st.drawn, Visited(v))
            && o.state.drawn == st.drawn + |TmpPaths(v)|
    decreases v
  {
    match v
    case Str(s) => StrRewrites(cfg, tokens, st, s);
    case List(items) => ItemsRewrite(cfg, tokens, st, items);
    case Tuple(items) => ItemsRewrite(cfg, tokens, st, items);
    case Dict(es) => EntriesRewrite(cfg, tokens, st, es);
    case Other(_) =>
  }

  lemma {:induction false} ItemsRewrite(cfg: Config, tokens: nat -> string, st: PubState, items: seq<Value>)
    requires AllSetFree(items)
    requires PublishItems(cfg, tokens, st, items, false).result.Success?
    ensures var o := PublishItems(cfg, tokens, st, items, false);
            && VisitedItems(o.result.value) == Rewritten(UrlFor(cfg, tokens), st.drawn, VisitedItems(items))
            && o.state.drawn == st.drawn + |ScratchPaths(VisitedItems(items))|
    decreases items
  {
    if items != [] {
      var n := |items| - 1;
      var front := PublishItems(cfg, tokens, st, items[..n], false);
      SetFreePrefix(items, n);
      ItemsRewrite(cfg, tokens, st, items[..n]);
      ValueRewrites(cfg, tokens, front.state, items[n]);
      var last := PublishValue(cfg, tokens, front.state, items[n]);
      var x := last.result.value;
      VisitedItemsSnoc(front.result.value, x);
      var o := PublishItems(cfg, tokens, st, items, false);
      assert o.result.value == front.result.value + [x] && o.state == last.state;
      var a, b := VisitedItems(items[..n]), Visited(items[n]);
      assert VisitedItems(items) == a + b;
      RewriteStep(UrlFor(cfg, tokens), st.drawn, a, b, VisitedItems(front.result.value), Visited(x), front.state.drawn);
    }
  }

  lemma {:induction false} EntriesRewrite(cfg: Config, tokens: nat -> string, st: PubState, es: seq<(Value, Value)>)
    requires EntriesSetFree(es)
    requires PublishEntries(cfg, tokens, st, es).result.Success?
    ensures var o := PublishEntries(cfg, tokens, st, es);
            && VisitedEntries(o.result.value) == Rewritten(UrlFor(cfg, tokens), st.drawn, VisitedEntries(es))
            && o.state.drawn == st.drawn + |ScratchPaths(VisitedEntries(es))|
    decreases es
  {
    if es != [] {
      var n := |es| - 1;
      var front := PublishEntries(cfg, tokens, st, es[..n]);
      EntriesSetFreePrefix(es, n);
      EntriesRewrite(cfg, tokens, st, es[..n]);
      EntryRewrites(cfg, tokens, front.state, es[n]);
      var last := PublishEntry(cfg, tokens, front.state, es[n]);
      var e := (es[n].0, last.result.value);
      VisitedEntriesSnoc(front.result.value, e);
      var o := PublishEntries(cfg, tokens, st, es);
      assert o.result.value == front.result.value + [e] && o.state == last.state;
      var a, b := VisitedEntries(es[..n]), VisitedEntry(es[n]);
      assert VisitedEntries(es) == a + b;
      RewriteStep(UrlFor(cfg, tokens), st.drawn, a, b, VisitedEntries(front.result.value), VisitedEntry(e), front.state.drawn);
    }
  }

  /** Rewriting two runs one after the other rewrites their concatenation. */
  lemma RewriteStep(url: (nat, string) -> string, drawn: nat, a: seq<string>, b: seq<string>,
                    wa: seq<string>, wb: seq<string>, mid: nat)
    requires wa == Rewritten(url, drawn, a) && mid == drawn + |ScratchPaths(a)|
    requires wb == Rewritten(url, mid, b)
    ensures wa + wb == Rewritten(url, drawn, a + b)
    ensures mid + |ScratchPaths(b)| == drawn + |ScratchPaths(a + b)|
  {
    RewrittenAppend(url, drawn, a, b);
    ScratchPathsAppend(a, b);
  }

  lemma {:induction false} EntryRewrites(cfg: Config, tokens: nat -> string, st: PubState, e: (Value, Value))
    requires EntrySetFree(e)
    requires PublishEntry(cfg, tokens, st, e).result.Success?
    ensures var o := PublishEntry(cfg, tokens, st, e);
            && Visited(o.result.value) == Rewritten(UrlFor(cfg, tokens), st.drawn, VisitedEntry(e))
            && o.state.drawn == st.drawn + |ScratchPaths(VisitedEntry(e))|
    decreases e
  {
    ValueRewrites(cfg, tokens, st, e.1);
  }

  /** What the rewriting and the account of the pairs together say of position `j`. */
  lemma RewrittenIsPairUrl(url: (nat, string) -> string, st: PubState, ss: seq<string>, ws: seq<string>, st': PubState, j: nat)
    requires ws == Rewritten(url, st.drawn, ss)
    requires Accounts(url, st, ScratchPaths(ss), st')
    requires j < |ss|
    ensures if IsScratchPath(ss[j]) then
              |st.published| + |ScratchPaths(ss[..j])| < |st'.published|
              && ws[j] == st'.published[|st.published| + |ScratchPaths(ss[..j])|].url
            else ws[j] == ss[j]
  {
    RewrittenAt(url, st.drawn, ss, j);
    if IsScratchPath(ss[j]) {
      ScratchPathIndex(ss, j);
      AccountsUrlAt(url, st, ScratchPaths(ss), st', |ScratchPaths(ss[..j])|);
    }
  }

  /**
   * In a walk of a value without sets that completes, the `j`-th visited
   * string of the result is the `j`-th visited string of the input, or, when
   * that is a scratch path, the URL of the new pair it gave rise to.
   */
  lemma PublishedStrings(cfg: Config, tokens: nat -> string, st: PubState, v: Value)
    requires SetFree(v)
    requires PublishValue(cfg, tokens, st, v).result.Success?
    ensures var o := PublishValue(cfg, tokens, st, v);
            var ss, ws := Visited(v), Visited(o.result.value);
            && |ws| == |ss|
            && forall j :: 0 <= j < |ss| ==>
                 if IsScratchPath(ss[j]) then
                   |st.published| + |ScratchPaths(ss[..j])| < |o.state.published|
                   && ws[j] == o.state.published[|st.published| + |ScratchPaths(ss[..j])|].url
                 else ws[j] == ss[j]
  {
    var o := PublishValue(cfg, tokens, st, v);
    var ss, ws := Visited(v), Visited(o.result.value);
    ValueRewrites(cfg, tokens, st, v);
    ValueAccounts(cfg, tokens, st, v);
    forall j | 0 <= j < |ss|
      ensures if IsScratchPath(ss[j]) then
                |st.published| + |ScratchPaths(ss[..j])| < |o.state.published|
                && ws[j] == o.state.published[|st.published| + |ScratchPaths(ss[..j])|].url
              else ws[j] == ss[j]
    {
      RewrittenIsPairUrl(UrlFor(cfg, tokens), st, ss, ws, o.state, j);
    }
  }

  /* ---------- what the walk does to the filesystem ---------- */

  /** The key under which the node a visited path names is found. */
  function SourceOf(cfg: Config): string -> string
  {
    (p: string) => AbsPath(cfg.cwd, p)
  }

  /** The key under which the copy of a visited path is stored when token number `n` is drawn for it. */
  function DestOf(cfg: Config, tokens: nat -> string): (nat, string) -> string
  {
    (n: nat, p: string) => AbsPath(cfg.cwd, Join(cfg.saveFileDir, PublicName(tokens(n), Basename(AbsPath(cfg.cwd, p)))))
  }

  /** `p` is the destination of none of `paths`, tokens numbered from `drawn`. */
  predicate NoDest(dst: (nat, string) -> string, drawn: nat, paths: seq<string>, p: string)
  {
    forall i :: 0 <= i < |paths| ==> p != dst(drawn + i, paths[i])
  }

  /** `p` is neither the source nor the destination of any of `paths`. */
  predicate Spared(src: string -> string, dst: (nat, string) -> string, drawn: nat, paths: seq<string>, p: string)
  {
    NoDest(dst, drawn, paths, p) && forall i :: 0 <= i < |paths| ==> p != src(paths[i])
  }

  /**
   * From `st` to `st'` the walk handled `paths`: one token each; a path that
   * is no destination holds nothing new or changed afterwards (a source can
   * only disappear); a path that is neither a source nor a destination is
   * still there.
   */
  predicate Touches(src: string -> string, dst: (nat, string) -> string, st: PubState, paths: seq<string>, st': PubState)
  {
    && st'.drawn == st.drawn + |paths|
    && (forall p :: p in st'.fs && NoDest(dst, st.drawn, paths, p) ==> p in st.fs && st'.fs[p] == st.fs[p])
    && (forall p :: p in st.fs && Spared(src, dst, st.drawn, paths, p) ==> p in st'.fs)
  }

  lemma NoDestSplit(dst: (nat, string) -> string, drawn: nat, a: seq<string>, b: seq<string>, p: string)
    requires NoDest(dst, drawn, a + b, p)
    ensures NoDest(dst, drawn, a, p) && NoDest(dst, drawn + |a|, b, p)
  {
    forall i | 0 <= i < |a| ensures p != dst(drawn + i, a[i]) {
      assert (a + b)[i] == a[i];
    }
    forall i | 0 <= i < |b| ensures p != dst(drawn + |a| + i, b[i]) {
      assert (a + b)[|a| + i] == b[i];
      assert drawn + (|a| + i) == drawn + |a| + i;
    }
  }

  lemma SparedSplit(src: string -> string, dst: (nat, string) -> string, drawn: nat, a: seq<string>, b: seq<string>, p: string)
    requires Spared(src, dst, drawn, a + b, p)
    ensures Spared(src, dst, drawn, a, p) && Spared(src, dst, drawn + |a|, b, p)
  {
    NoDestSplit(dst, drawn, a, b, p);
    forall i | 0 <= i < |a| ensures p != src(a[i]) {
      assert (a + b)[i] == a[i];
    }
    forall i | 0 <= i < |b| ensures p != src(b[i]) {
      assert (a + b)[|a| + i] == b[i];
    }
  }

  lemma TouchesChain(src: string -> string, dst: (nat, string) -> string,
                     st: PubState, a: seq<string>, st1: PubState, b: seq<string>, st2: PubState)
    requires Touches(src, dst, st, a, st1) && Touches(src, dst, st1, b, st2)
    ensures Touches(src, dst, st, a + b, st2)
  {
    forall p | p in st2.fs && NoDest(dst, st.drawn, a + b, p)
      ensures p in st.fs && st2.fs[p] == st.fs[p]
    {
      NoDestSplit(dst, st.drawn, a, b, p);
    }
    forall p | p in st.fs && Spared(src, dst, st.drawn, a + b, p)
      ensures p in st2.fs
    {
      SparedSplit(src, dst, st.drawn, a, b, p);
    }
  }

  lemma TouchesNothing(src: string -> string, dst: (nat, string) -> string, st: PubState)
    ensures Touches(src, dst, st, [], st)
  {
  }

  /** The filesystem after a converted scratch string: the raw move from its source to its destination. */
  lemma PublishStrFs(cfg: Config, tokens: nat -> string, st: PubState, s: string)
    requires IsScratchPath(s)
    requires ConvertTmpToSavePath(cfg, st.fs, s, tokens(st.drawn)).Success?
    ensures PublishStr(cfg, tokens, st, s).state.fs == MoveRaw(st.fs, s, SourceOf(cfg)(s), DestOf(cfg, tokens)(st.drawn, s)).1
    ensures PublishStr(cfg, tokens, st, s).state.drawn == st.drawn + 1
  {
    var c := ConvertTmpToSavePath(cfg, st.fs, s, tokens(st.drawn));
    PublishStrMoves(cfg, tokens, st, s);
    assert DestOf(cfg, tokens)(st.drawn, s) == Resolve(cfg.cwd, c.value.0);
  }

  /** `MoveRaw` changes at most its source and its destination. */
  lemma MoveRawFrame(fs: FileSystem, data: string, src: string, dst: string)
    ensures var fs' := MoveRaw(fs, data, src, dst).1;
            && (forall p :: p in fs' && p != dst ==> p in fs && fs'[p] == fs[p])
            && (forall p :: p in fs && p != src && p != dst ==> p in fs')
  {
  }

  /** One visited path whose step changes at most its own source and destination. */
  lemma TouchesOne(src: string -> string, dst: (nat, string) -> string, st: PubState, s: string, st': PubState)
    requires st'.drawn == st.drawn + 1
    requires forall p :: p in st'.fs && p != dst(st.drawn, s) ==> p in st.fs && st'.fs[p] == st.fs[p]
    requires forall p :: p in st.fs && p != src(s) && p != dst(st.drawn, s) ==> p in st'.fs
    ensures Touches(src, dst, st, [s], st')
  {
    forall p | p in st'.fs && NoDest(dst, st.drawn, [s], p)
      ensures p in st.fs && st'.fs[p] == st.fs[p]
    {
      assert p != dst(st.drawn + 0, [s][0]);
    }
    forall p | p in st.fs && Spared(src, dst, st.drawn, [s], p)
      ensures p in st'.fs
    {
      assert p != dst(st.drawn + 0, [s][0]) && p != src([s][0]);
    }
  }

  lemma ScratchTouches(cfg: Config, tokens: nat -> string, st: PubState, s: string)
    requires IsScratchPath(s)
    requires ConvertTmpToSavePath(cfg, st.fs, s, tokens(st.drawn)).Success?
    ensures Touches(SourceOf(cfg), DestOf(cfg, tokens), st, [s], PublishStr(cfg, tokens, st, s).state)
  {
    PublishStrFs(cfg, tokens, st, s);
    MoveRawFrame(st.fs, s, SourceOf(cfg)(s), DestOf(cfg, tokens)(st.drawn, s));
    TouchesOne(SourceOf(cfg), DestOf(cfg, tokens), st, s, PublishStr(cfg, tokens, st, s).state);
  }

  /** A string step touches its own source and destination and nothing else. */
  lemma StrTouches(cfg: Config, tokens: nat -> string, st: PubState, s: string)
    requires PublishStr(cfg, tokens, st, s).result.Success?
    ensures Touches(SourceOf(cfg), DestOf(cfg, tokens), st, TmpPaths(Str(s)), PublishStr(cfg, tokens, st, s).state)
  {
    assert TmpPaths(Str(s)) == if IsScratchPath(s) then [s] else [];
    if IsScratchPath(s) {
      ScratchTouches(cfg, tokens, st, s);
    } else {
      TouchesNothing(SourceOf(cfg), DestOf(cfg, tokens), st);
    }
  }

  /**
   * A walk that completes changes only the sources and destinations of its
   * visited scratch paths: one token is drawn per path, any other path
   * keeps its node, and nothing but a destination appears.
   */
  lemma {:induction false} ValueTouches(cfg: Config, tokens: nat -> string, st: PubState, v: Value)
    requires PublishValue(cfg, tokens, st, v).result.Success?
    ensures Touches(SourceOf(cfg), DestOf(cfg, tokens), st, TmpPaths(v), PublishValue(cfg, tokens, st, v).state)
    decreases v
  {
    match v
    case Str(s) => StrTouches(cfg, tokens, st, s);
    case List(items) => ItemsTouch(cfg, tokens, st, items, false);
    case Tuple(items) => ItemsTouch(cfg, tokens, st, items, false);
    case Set(items) => ItemsTouch(cfg, tokens, st, items, true);
    case Dict(es) => EntriesTouch(cfg, tokens, st, es);
    case Other(_) =>
      assert TmpPaths(v) == [];
      TouchesNothing(SourceOf(cfg), DestOf(cfg, tokens), st);
  }

  lemma {:induction false} ItemsTouch(cfg: Config, tokens: nat -> string, st: PubState, items: seq<Value>, asSet: bool)
    requires PublishItems(cfg, tokens, st, items, asSet).result.Success?
    ensures Touches(SourceOf(cfg), DestOf(cfg, tokens), st, ScratchPaths(VisitedItems(items)), PublishItems(cfg, tokens, st, items, asSet).state)
    decreases items
  {
    if items == [] {
      TouchesNothing(SourceOf(cfg), DestOf(cfg, tokens), st);
    } else {
      var n := |items| - 1;
      var o := PublishItems(cfg, tokens, st, items[..n], asSet);
      ItemsTouch(cfg, tokens, st, items[..n], asSet);
      ValueTouches(cfg, tokens, o.state, items[n]);
      ScratchPathsAppend(VisitedItems(items[..n]), Visited(items[n]));
      TouchesChain(SourceOf(cfg), DestOf(cfg, tokens), st, ScratchPaths(VisitedItems(items[..n])), o.state,
                   TmpPaths(items[n]), PublishValue(cfg, tokens, o.state, items[n]).state);
    }
  }

  lemma {:induction false} EntriesTouch(cfg: Config, tokens: nat -> string, st: PubState, es: seq<(Value, Value)>)
    requires PublishEntries(cfg, tokens, st, es).result.Success?
    ensures Touches(SourceOf(cfg), DestOf(cfg, tokens), st, ScratchPaths(VisitedEntries(es)), PublishEntries(cfg, tokens, st, es).state)
    decreases es
  {
    if es == [] {
      TouchesNothing(SourceOf(cfg), DestOf(cfg, tokens), st);
    } else {
      var n := |es| - 1;
      var o := PublishEntries(cfg, tokens, st, es[..n]);
      EntriesTouch(cfg, tokens, st, es[..n]);
      EntryTouches(cfg, tokens, o.state, es[n]);
      ScratchPathsAppend(VisitedEntries(es[..n]), VisitedEntry(es[n]));
      TouchesChain(SourceOf(cfg), DestOf(cfg, tokens), st, ScratchPaths(VisitedEntries(es[..n])), o.state,
                   ScratchPaths(VisitedEntry(es[n])), PublishEntry(cfg, tokens, o.state, es[n]).state);
    }
  }

  lemma {:induction false} EntryTouches(cfg: Config, tokens: nat -> string, st: PubState, e: (Value, Value))
    requires PublishEntry(cfg, tokens, st, e).result.Success?
    ensures Touches(SourceOf(cfg), DestOf(cfg, tokens), st, ScratchPaths(VisitedEntry(e)), PublishEntry(cfg, tokens, st, e).state)
    decreases e
  {
    ValueTouches(cfg, tokens, st, e.1);
  }

  /** The frame of a whole walk: a path that is no visited path's source or destination keeps its node. */
  lemma WalkFrame(cfg: Config, tokens: nat -> string, st: PubState, v: Value)
    requires PublishValue(cfg, tokens, st, v).result.Success?
    ensures var fs' := PublishValue(cfg, tokens, st, v).state.fs;
            forall p :: Spared(SourceOf(cfg), DestOf(cfg, tokens), st.drawn, TmpPaths(v), p) ==>
              (p in fs' <==> p in st.fs) && (p in st.fs ==> fs'[p] == st.fs[p])
  {
    ValueTouches(cfg, tokens, st, v);
  }

  /* ---------- the visited sources are gone ---------- */

  /** `d` is neither `p` nor a directory that `p` lies beneath. */
  predicate Clear(d: string, p: string)
  {
    d != p && !StartsWith(p, d + "/")
  }

  /**
   * Conditions under which every visited source is found where the
   * translator looked: each path is spelled as its own key and has only
   * directories above it, no path comes twice, and no destination is one of
   * the paths or a directory above one.
   */
  predicate Separate(src: string -> string, dst: (nat, string) -> string, fs: FileSystem, drawn: nat, paths: seq<string>)
  {
    && (forall i :: 0 <= i < |paths| ==> src(paths[i]) == paths[i] && OnDirs(fs, paths[i]))
    && Distinct(paths)
    && (forall i, j :: 0 <= i < |paths| && 0 <= j < |paths| ==> Clear(dst(drawn + j, paths[j]), paths[i]))
  }

  /** Every one of `paths` that held a file or a directory in `st` is absent from `st'`. */
  predicate Gone(st: PubState, paths: seq<string>, st': PubState)
  {
    forall i :: 0 <= i < |paths| && Movable(st.fs, paths[i]) ==> paths[i] !in st'.fs
  }

  lemma SeparatePrefix(src: string -> string, dst: (nat, string) -> string, fs: FileSystem, drawn: nat, a: seq<string>, b: seq<string>)
    requires Separate(src, dst, fs, drawn, a + b)
    ensures Separate(src, dst, fs, drawn, a)
  {
    var ab := a + b;
    forall i | 0 <= i < |a| ensures src(a[i]) == a[i] && OnDirs(fs, a[i]) {
      assert ab[i] == a[i];
    }
    forall i, j | 0 <= i < j < |a| ensures a[i] != a[j] {
      assert ab[i] == a[i] && ab[j] == a[j];
    }
    forall i, j | 0 <= i < |a| && 0 <= j < |a| ensures Clear(dst(drawn + j, a[j]), a[i]) {
      assert ab[i] == a[i] && ab[j] == a[j];
    }
  }

  /**
   * After the walk has handled `a`, the rest `b` still meets the conditions,
   * and what could be moved in `b` still can.
   */
  lemma SeparateRest(src: string -> string, dst: (nat, string) -> string, st: PubState, a: seq<string>, st1: PubState, b: seq<string>)
    requires Touches(src, dst, st, a, st1)
    requires Separate(src, dst, st.fs, st.drawn, a + b)
    ensures Separate(src, dst, st1.fs, st1.drawn, b)
    ensures forall k :: 0 <= k < |b| && Movable(st.fs, b[k]) ==> Movable(st1.fs, b[k])
  {
    var ab := a + b;
    forall k | 0 <= k < |b|
      ensures src(b[k]) == b[k] && OnDirs(st1.fs, b[k]) && (Movable(st.fs, b[k]) ==> Movable(st1.fs, b[k]))
    {
      assert ab[|a| + k] == b[k];
      var q := b[k];
      forall x | x in st1.fs && StartsWith(q, x + "/") ensures st1.fs[x].Dir? {
        forall j | 0 <= j < |a| ensures x != dst(st.drawn + j, a[j]) {
          assert ab[j] == a[j];
          assert Clear(dst(st.drawn + j, ab[j]), ab[|a| + k]);
        }
        assert NoDest(dst, st.drawn, a, x);
      }
      if Movable(st.fs, q) {
        forall j | 0 <= j < |a| ensures q != dst(st.drawn + j, a[j]) && q != src(a[j]) {
          assert ab[j] == a[j];
          assert Clear(dst(st.drawn + j, ab[j]), ab[|a| + k]);
          assert src(ab[j]) == ab[j];
          assert j < |a| + k;
        }
        assert Spared(src, dst, st.drawn, a, q);
      }
    }
    forall i, j | 0 <= i < j < |b| ensures b[i] != b[j] {
      assert ab[|a| + i] == b[i] && ab[|a| + j] == b[j];
    }
    forall i, j | 0 <= i < |b| && 0 <= j < |b| ensures Clear(dst(st1.drawn + j, b[j]), b[i]) {
      assert ab[|a| + i] == b[i] && ab[|a| + j] == b[j];
      assert st1.drawn + j == st.drawn + (|a| + j);
    }
  }

  /** The sources of `a` stay gone while `b` is handled, since no destination of `b` is one of them. */
  lemma GoneJoin(src: string -> string, dst: (nat, string) -> string,
                 st: PubState, a: seq<string>, st1: PubState, b: seq<string>, st2: PubState)
    requires Touches(src, dst, st, a, st1) && Touches(src, dst, st1, b, st2)
    requires Separate(src, dst, st.fs, st.drawn, a + b)
    requires Gone(st, a, st1) && Gone(st1, b, st2)
    ensures Gone(st, a + b, st2)
  {
    SeparateRest(src, dst, st, a, st1, b);
    var ab := a + b;
    forall i | 0 <= i < |ab| && Movable(st.fs, ab[i]) ensures ab[i] !in st2.fs {
      if i < |a| {
        assert ab[i] == a[i];
        forall j | 0 <= j < |b| ensures a[i] != dst(st1.drawn + j, b[j]) {
          assert ab[|a| + j] == b[j];
          assert st1.drawn + j == st.drawn + (|a| + j);
          assert Clear(dst(st.drawn + (|a| + j), ab[|a| + j]), ab[i]);
        }
        assert NoDest(dst, st1.drawn, b, a[i]);
      } else {
        assert ab[i] == b[i - |a|];
      }
    }
  }

  lemma GoneNothing(st: PubState, st': PubState)
    ensures Gone(st, [], st')
  {
  }

  /** A raw move of a file or directory that the string as written finds removes its source. */
  lemma MoveRawRemoves(fs: FileSystem, data: string, src: string, dst: string)
    requires RawResolves(fs, data) && Movable(fs, src) && dst != src
    ensures src !in MoveRaw(fs, data, src, dst).1
  {
  }

  /** A scratch path spelled as its own key, with only directories above it, is found as written. */
  lemma OwnKeyResolves(cwd: string, fs: FileSystem, s: string)
    requires IsScratchPath(s) && AbsPath(cwd, s) == s
    requires s in fs && OnDirs(fs, s)
    ensures RawResolves(fs, s)
  {
    assert s[..5] == "/tmp/";
    assert StartsWith(s, "/") by { assert s[..1] == s[..5][..1]; }
    AbsPathOfRooted(cwd, s);
    CanonicalResolves(fs, s);
  }

  /** A scratch path spelled as its own key, with only directories above it, is moved away. */
  lemma ScratchGone(cfg: Config, tokens: nat -> string, st: PubState, s: string)
    requires IsScratchPath(s)
    requires ConvertTmpToSavePath(cfg, st.fs, s, tokens(st.drawn)).Success?
    requires Separate(SourceOf(cfg), DestOf(cfg, tokens), st.fs, st.drawn, [s])
    ensures Gone(st, [s], PublishStr(cfg, tokens, st, s).state)
  {
    if Movable(st.fs, s) {
      var dst := DestOf(cfg, tokens)(st.drawn, s);
      assert SourceOf(cfg)([s][0]) == [s][0] && OnDirs(st.fs, [s][0]);
      assert Clear(DestOf(cfg, tokens)(st.drawn + 0, [s][0]), [s][0]);
      assert SourceOf(cfg)(s) == s && dst != s;
      OwnKeyResolves(cfg.cwd, st.fs, s);
      MoveRawRemoves(st.fs, s, s, dst);
      PublishStrFs(cfg, tokens, st, s);
    }
  }

  lemma StrGone(cfg: Config, tokens: nat -> string, st: PubState, s: string)
    requires PublishStr(cfg, tokens, st, s).result.Success?
    requires Separate(SourceOf(cfg), DestOf(cfg, tokens), st.fs, st.drawn, TmpPaths(Str(s)))
    ensures Gone(st, TmpPaths(Str(s)), PublishStr(cfg, tokens, st, s).state)
  {
    assert TmpPaths(Str(s)) == if IsScratchPath(s) then [s] else [];
    if IsScratchPath(s) {
      ScratchGone(cfg, tokens, st, s);
    } else {
      GoneNothing(st, PublishStr(cfg, tokens, st, s).state);
    }
  }

  /**
   * Each visited source that held a file or a directory is gone after the
   * walk, provided the visited paths are spelled as their own keys with only
   * directories above them, none comes twice, and no destination is a
   * visited path or lies above one.
   */
  lemma {:induction false} ValueGone(cfg: Config, tokens: nat -> string, st: PubState, v: Value)
    requires PublishValue(cfg, tokens, st, v).result.Success?
    requires Separate(SourceOf(cfg), DestOf(cfg, tokens), st.fs, st.drawn, TmpPaths(v))
    ensures Gone(st, TmpPaths(v), PublishValue(cfg, tokens, st, v).state)
    decreases v
  {
    match v
    case Str(s) => StrGone(cfg, tokens, st, s);
    case List(items) => ItemsGone(cfg, tokens, st, items, false);
    case Tuple(items) => ItemsGone(cfg, tokens, st, items, false);
    case Set(items) => ItemsGone(cfg, tokens, st, items, true);
    case Dict(es) => EntriesGone(cfg, tokens, st, es);
    case Other(_) =>
      assert TmpPaths(v) == [];
      GoneNothing(st, st);
  }

  lemma {:induction false} ItemsGone(cfg: Config, tokens: nat -> string, st: PubState, items: seq<Value>, asSet: bool)
    requires PublishItems(cfg, tokens, st, items, asSet).result.Success?
    requires Separate(SourceOf(cfg), DestOf(cfg, tokens), st.fs, st.drawn, ScratchPaths(VisitedItems(items)))
    ensures Gone(st, ScratchPaths(VisitedItems(items)), PublishItems(cfg, tokens, st, items, asSet).state)
    decreases items
  {
    if items == [] {
      GoneNothing(st, st);
    } else {
      var n := |items| - 1;
      var o := PublishItems(cfg, tokens, st, items[..n], asSet);
      var a, b := ScratchPaths(VisitedItems(items[..n])), TmpPaths(items[n]);
      ScratchPathsAppend(VisitedItems(items[..n]), Visited(items[n]));
      SeparatePrefix(SourceOf(cfg), DestOf(cfg, tokens), st.fs, st.drawn, a, b);
      ItemsGone(cfg, tokens, st, items[..n], asSet);
      ItemsTouch(cfg, tokens, st, items[..n], asSet);
      SeparateRest(SourceOf(cfg), DestOf(cfg, tokens), st, a, o.state, b);
      ValueGone(cfg, tokens, o.state, items[n]);
      ValueTouches(cfg, tokens, o.state, items[n]);
      GoneJoin(SourceOf(cfg), DestOf(cfg, tokens), st, a, o.state, b, PublishValue(cfg, tokens, o.state, items[n]).state);
    }
  }

  lemma {:induction false} EntriesGone(cfg: Config, tokens: nat -> string, st: PubState, es: seq<(Value, Value)>)
    requires PublishEntries(cfg, tokens, st, es).result.Success?
    requires Separate(SourceOf(cfg), DestOf(cfg, tokens), st.fs, st.drawn, ScratchPaths(VisitedEntries(es)))
    ensures Gone(st, ScratchPaths(VisitedEntries(es)), PublishEntries(cfg, tokens, st, es).state)
    decreases es
  {
    if es == [] {
      GoneNothing(st, st);
    } else {
      var n := |es| - 1;
      var o := PublishEntries(cfg, tokens, st, es[..n]);
      var a, b := ScratchPaths(VisitedEntries(es[..n])), ScratchPaths(VisitedEntry(es[n]));
      ScratchPathsAppend(VisitedEntries(es[..n]), VisitedEntry(es[n]));
      SeparatePrefix(SourceOf(cfg), DestOf(cfg, tokens), st.fs, st.drawn, a, b);
      EntriesGone(cfg, tokens, st, es[..n]);
      EntriesTouch(cfg, tokens, st, es[..n]);
      SeparateRest(SourceOf(cfg), DestOf(cfg, tokens), st, a, o.state, b);
      EntryGone(cfg, tokens, o.state, es[n]);
      EntryTouches(cfg, tokens, o.state, es[n]);
      GoneJoin(SourceOf(cfg), DestOf(cfg, tokens), st, a, o.state, b, PublishEntry(cfg, tokens, o.state, es[n]).state);
    }
  }

  lemma {:induction false} EntryGone(cfg: Config, tokens: nat -> string, st: PubState, e: (Value, Value))
    requires PublishEntry(cfg, tokens, st, e).result.Success?
    requires Separate(SourceOf(cfg), DestOf(cfg, tokens), st.fs, st.drawn, ScratchPaths(VisitedEntry(e)))
    ensures Gone(st, ScratchPaths(VisitedEntry(e)), PublishEntry(cfg, tokens, st, e).state)
    decreases e
  {
    ValueGone(cfg, tokens, st, e.1);
  }
}
