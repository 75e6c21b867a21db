/**
 * What `_deep_publish_tmp_paths` promises about one published string and
 * about a whole walk: values without scratch paths come back unchanged, the
 * shape of the value is kept, every visited scratch path draws one token and
 * appends one pair in visit order, the source is gone afterwards, and a
 * second publication of the same path fails.
 */
module PublishProps {
  import opened Common
  import opened Paths
  import opened FileStore
  import opened Translate
  import opened Values
  import opened Publish

  /** A node that `shutil.copy` or `shutil.copytree` moves: a regular file or a directory. */
  predicate Movable(fs: FileSystem, p: string)
  {
    p in fs && (fs[p].File? || fs[p].Dir?)
  }

  /** What a failing conversion does to a scratch string: raises its error, changes nothing. */
  lemma PublishStrFails(cfg: Config, tokens: nat -> string, st: PubState, s: string)
    requires IsScratchPath(s)
    requires ConvertTmpToSavePath(cfg, st.fs, s, tokens(st.drawn)).Failure?
    ensures var o := PublishStr(cfg, tokens, st, s);
            && o.state == st
            && (o.result == Failure(NotInTmp) <==> !StartsWith(AbsPath(cfg.cwd, s), TmpRoot))
            && (o.result == Failure(SourceNotFound) <==> StartsWith(AbsPath(cfg.cwd, s), TmpRoot))
  {
  }

  /**
   * A scratch string that converts and that the operating system finds as
   * written: it becomes the public URL of its destination, one token is
   * drawn, and one pair is appended whose preview and the filesystem after
   * it are those of moving the source node to the destination (see
   * `MoveNodeEffect`).
   */
  lemma PublishStrSucceeds(cfg: Config, tokens: nat -> string, st: PubState, s: string)
    requires IsScratchPath(s)
    requires ConvertTmpToSavePath(cfg, st.fs, s, tokens(st.drawn)).Success?
    requires RawResolves(st.fs, s)
    ensures var o := PublishStr(cfg, tokens, st, s);
            var src := AbsPath(cfg.cwd, s);
            var dst := AbsPath(cfg.cwd, ConvertTmpToSavePath(cfg, st.fs, s, tokens(st.drawn)).value.0);
            var url := PublicUrl(cfg, PublicName(tokens(st.drawn), Basename(src)));
            && o.result == Success(Str(url))
            && o.state.drawn == st.drawn + 1
            && o.state.published == st.published + [Pair(MoveNode(st.fs, src, dst).0, url)]
            && o.state.fs == MoveNode(st.fs, src, dst).1
  {
    PublishStrMoves(cfg, tokens, st, s);
  }

  /**
   * A scratch string that converts but that the operating system does not
   * find as written (a trailing "/" after a file, a ".." after a missing
   * name): it is still replaced by its URL and a token is drawn, but nothing
   * moves and the pair's preview is empty.
   */
  lemma PublishStrUnresolved(cfg: Config, tokens: nat -> string, st: PubState, s: string)
    requires IsScratchPath(s)
    requires ConvertTmpToSavePath(cfg, st.fs, s, tokens(st.drawn)).Success?
    requires !RawResolves(st.fs, s)
    ensures var o := PublishStr(cfg, tokens, st, s);
            var url := PublicUrl(cfg, PublicName(tokens(st.drawn), Basename(AbsPath(cfg.cwd, s))));
            && o.result == Success(Str(url))
            && o.state.drawn == st.drawn + 1
            && o.state.published == st.published + [Pair("", url)]
            && o.state.fs == st.fs
  {
    PublishStrMoves(cfg, tokens, st, s);
  }

  /**
   * "/tmp/name/" where /tmp/name is a regular file: the translator accepts the
   * normalised path, but the file stays where it is and the preview is empty.
   */
  lemma TrailingSlashLeavesFile(cfg: Config, tokens: nat -> string, st: PubState, name: string)
    requires Plain(name)
    requires "/tmp/" + name in st.fs && st.fs["/tmp/" + name].File?
    ensures var o := PublishStr(cfg, tokens, st, "/tmp/" + name + "/");
            && o.result.Success?
            && o.state.fs == st.fs
            && o.state.published == st.published + [Pair("", o.result.value.s)]
  {
    var s := "/tmp/" + name + "/";
    assert "/" + "tmp" + "/" + name + "/" == s && "/" + "tmp" + "/" + name == "/tmp/" + name;
    TrailingSlashAfterFile(st.fs, "tmp", name);
    assert AbsPath(cfg.cwd, s) == "/tmp/" + name;
    NormPathIdempotent(s);
    assert StartsWith(s, "/tmp/");
    assert StartsWith("/tmp/" + name, TmpRoot);
    assert Exists(cfg.cwd, st.fs, AbsPath(cfg.cwd, s));
    PublishStrUnresolved(cfg, tokens, st, s);
  }

  /**
   * Moving the node at `src`: the preview the node's kind calls for, the
   * source removed, the copy at the destination, every other path
   * untouched; anything that is neither a file nor a directory is left
   * alone with an empty preview.
   */
  lemma MoveNodeEffect(fs: FileSystem, src: string, dst: string)
    requires src in fs
    ensures var (preview, fs') := MoveNode(fs, src, dst);
            && (fs[src].File? ==> preview == ReadPreview(fs[src]))
            && (fs[src].File? && fs[src].readable ==>
                  && |preview| <= PreviewLimit
                  && preview == fs[src].text[..|preview|] && (|preview| == PreviewLimit || preview == fs[src].text))
            && (fs[src].File? && !fs[src].readable ==> preview == UnreadableMarker)
            && (fs[src].Dir? ==> preview == DirectoryMarker)
            && (fs[src].Special? ==> preview == "" && fs' == fs)
            && (Movable(fs, src) ==> src !in fs')
            && (Movable(fs, src) && dst != src ==> dst in fs' && fs'[dst] == fs[src])
            && (forall p :: p != src && p != dst ==> (p in fs' <==> p in fs))
            && (forall p :: p != src && p != dst && p in fs ==> fs'[p] == fs[p])
  {
  }

  /**
   * After a file or directory is published, its URL translates back to the
   * destination path, and the node found there is the one that was moved.
   * The destination is written in normal form with only directories above
   * it, as it is for a SAVE_FILE_DIR built by `abspath` and ending in '/'.
   */
  lemma PublishedCopyRoundTrip(cfg: Config, tokens: nat -> string, st: PubState, s: string)
    requires IsScratchPath(s) && IsToken(tokens(st.drawn))
    requires ConvertTmpToSavePath(cfg, st.fs, s, tokens(st.drawn)).Success?
    requires RawResolves(st.fs, s) && Movable(st.fs, AbsPath(cfg.cwd, s))
    requires var w := Join(cfg.cwd, ConvertTmpToSavePath(cfg, st.fs, s, tokens(st.drawn)).value.0);
             Canonical(w) && OnDirs(st.fs, w)
    ensures var dstFilepath := ConvertTmpToSavePath(cfg, st.fs, s, tokens(st.drawn)).value.0;
            var o := PublishStr(cfg, tokens, st, s);
            && o.result.Success? && o.result.value.Str?
            && ConvertPublicToSavePath(cfg, o.state.fs, o.result.value.s) == Success(dstFilepath)
            && AbsPath(cfg.cwd, dstFilepath) in o.state.fs
            && o.state.fs[AbsPath(cfg.cwd, dstFilepath)] == st.fs[AbsPath(cfg.cwd, s)]
  {
    var token := tokens(st.drawn);
    var c := ConvertTmpToSavePath(cfg, st.fs, s, token).value;
    var src, dst := AbsPath(cfg.cwd, s), AbsPath(cfg.cwd, c.0);
    DestinationDiffers(cfg, st.fs, s, token);
    PublishStrSucceeds(cfg, tokens, st, s);
    MoveNodeEffect(st.fs, src, dst);
    var o := PublishStr(cfg, tokens, st, s);
    assert dst in o.state.fs && o.state.fs[dst] == st.fs[src];
    CopyWalks(cfg.cwd, st.fs, src, c.0, o.state.fs);
    PublicUrlRoundTrip(cfg, st.fs, s, token, o.state.fs);
    assert o.result.value.s == PublicUrl(cfg, c.1);
  }

  /**
   * A copy placed at a destination written in normal form, with only
   * directories above it before the move, exists there as written.
   */
  lemma CopyWalks(cwd: string, fs: FileSystem, src: string, d: string, fs': FileSystem)
    requires Canonical(Join(cwd, d)) && OnDirs(fs, Join(cwd, d))
    requires var dst := AbsPath(cwd, d);
             && dst in fs'
             && (forall p :: p != src && p != dst ==> (p in fs' <==> p in fs))
             && (forall p :: p != src && p != dst && p in fs ==> fs'[p] == fs[p])
             && src !in fs'
    ensures ExistsAsWritten(cwd, fs', d)
  {
    var w := Join(cwd, d);
    assert AbsPath(cwd, d) == NormPath(w);
    forall a | a in fs' && StartsWith(w, a + "/") ensures fs'[a].Dir? {
      assert a != w;
    }
    CanonicalWalks(fs', w);
  }

  /** A scratch path that converts names a node that exists. */
  lemma ConvertedSourceExists(cfg: Config, tokens: nat -> string, st: PubState, s: string)
    requires ValidConfig(cfg)
    requires ConvertTmpToSavePath(cfg, st.fs, s, tokens(st.drawn)).Success?
    ensures AbsPath(cfg.cwd, s) in st.fs
  {
    AbsPathIdempotent(cfg.cwd, s);
  }

  /**
   * Once a file or directory is published from a spelling the operating
   * system finds, publishing any spelling of the same path again raises
   * "File not found": the source has been removed.
   */
  lemma RepublishFails(cfg: Config, tokens: nat -> string, st: PubState, s: string, s': string)
    requires ValidConfig(cfg)
    requires IsScratchPath(s) && IsScratchPath(s')
    requires AbsPath(cfg.cwd, s') == AbsPath(cfg.cwd, s)
    requires PublishStr(cfg, tokens, st, s).result.Success?
    requires Movable(st.fs, AbsPath(cfg.cwd, s)) && RawResolves(st.fs, s)
    ensures var st1 := PublishStr(cfg, tokens, st, s).state;
            PublishStr(cfg, tokens, st1, s') == Step(Failure(SourceNotFound), st1)
  {
    AbsPathIdempotent(cfg.cwd, s);
    var src := AbsPath(cfg.cwd, s);
    assert ConvertTmpToSavePath(cfg, st.fs, s, tokens(st.drawn)).Success?;
    PublishStrSucceeds(cfg, tokens, st, s);
    MoveNodeEffect(st.fs, src, AbsPath(cfg.cwd, ConvertTmpToSavePath(cfg, st.fs, s, tokens(st.drawn)).value.0));
    var st1 := PublishStr(cfg, tokens, st, s).state;
    assert src !in st1.fs;
    var o := PublishStr(cfg, tokens, st1, s');
    assert ConvertTmpToSavePath(cfg, st1.fs, s', tokens(st1.drawn)) == Failure(SourceNotFound);
    assert o.result == Failure(SourceNotFound) && o.state == st1;
  }

  /**
   * A spelling the operating system does not find leaves the source in
   * place, so any spelling of the same path converts again afterwards.
   */
  lemma UnresolvedRepublishes(cfg: Config, tokens: nat -> string, st: PubState, s: string, s': string, token: string)
    requires IsScratchPath(s)
    requires AbsPath(cfg.cwd, s') == AbsPath(cfg.cwd, s)
    requires PublishStr(cfg, tokens, st, s).result.Success?
    requires !RawResolves(st.fs, s)
    ensures var st1 := PublishStr(cfg, tokens, st, s).state;
            ConvertTmpToSavePath(cfg, st1.fs, s', token).Success?
  {
    assert ConvertTmpToSavePath(cfg, st.fs, s, tokens(st.drawn)).Success?;
    PublishStrUnresolved(cfg, tokens, st, s);
  }

  /** The same path listed twice in a spelling the operating system finds: the walk stops at its second occurrence. */
  lemma DuplicateInListFails(cfg: Config, tokens: nat -> string, st: PubState, s: string)
    requires ValidConfig(cfg)
    requires IsScratchPath(s)
    requires PublishStr(cfg, tokens, st, s).result.Success?
    requires Movable(st.fs, AbsPath(cfg.cwd, s)) && RawResolves(st.fs, s)
    ensures PublishValue(cfg, tokens, st, List([Str(s), Str(s)])).result == Failure(SourceNotFound)
  {
    var items := [Str(s), Str(s)];
    var one := items[..1];
    assert one == [Str(s)] && one[..0] == [];
    var first := PublishStr(cfg, tokens, st, s);
    assert PublishItems(cfg, tokens, st, [], false) == Step(Success([]), st);
    assert PublishValue(cfg, tokens, st, one[0]) == first;
    assert PublishItems(cfg, tokens, st, one, false) == Step(Success([] + [first.result.value]), first.state);
    RepublishFails(cfg, tokens, st, s, s);
    assert PublishValue(cfg, tokens, first.state, items[1]).result == Failure(SourceNotFound);
  }

  /** "/tmp/name/" listed twice, with /tmp/name a regular file: both occurrences are published. */
  lemma DuplicateTrailingSlashPublishesTwice(cfg: Config, tokens: nat -> string, st: PubState, name: string)
    requires Plain(name)
    requires "/tmp/" + name in st.fs && st.fs["/tmp/" + name].File?
    ensures var o := PublishValue(cfg, tokens, st, List([Str("/tmp/" + name + "/"), Str("/tmp/" + name + "/")]));
            o.result.Success? && o.state.fs == st.fs && |o.state.published| == |st.published| + 2
  {
    var s := "/tmp/" + name + "/";
    var items := [Str(s), Str(s)];
    var one := items[..1];
    assert one == [Str(s)] && one[..0] == [];
    TrailingSlashLeavesFile(cfg, tokens, st, name);
    var first := PublishStr(cfg, tokens, st, s);
    TrailingSlashLeavesFile(cfg, tokens, first.state, name);
    var second := PublishStr(cfg, tokens, first.state, s);
    assert PublishItems(cfg, tokens, st, [], false) == Step(Success([]), st);
    assert PublishValue(cfg, tokens, st, one[0]) == first;
    assert PublishItems(cfg, tokens, st, one, false) == Step(Success([] + [first.result.value]), first.state);
    assert PublishValue(cfg, tokens, first.state, items[1]) == second;
    assert items[..2] == items;
  }

  /* ---------- identity when nothing is published ---------- */

  /** A well-formed value whose visited strings avoid /tmp/ comes back unchanged, and nothing happens. */
  lemma {:induction false} ValueUnchanged(cfg: Config, tokens: nat -> string, st: PubState, v: Value)
    requires WellFormed(v) && TmpPaths(v) == []
    ensures PublishValue(cfg, tokens, st, v) == Step(Success(v), st)
    decreases v
  {
    match v
    case Str(s) =>
    case List(items) => ItemsUnchanged(cfg, tokens, st, items, false);
    case Tuple(items) => ItemsUnchanged(cfg, tokens, st, items, false);
    case Set(items) => ItemsUnchanged(cfg, tokens, st, items, true);
    case Dict(es) => EntriesUnchanged(cfg, tokens, st, es);
    case Other(_) =>
  }

  lemma {:induction false} ItemsUnchanged(cfg: Config, tokens: nat -> string, st: PubState, items: seq<Value>, asSet: bool)
    requires AllWellFormed(items) && ScratchPaths(VisitedItems(items)) == []
    requires asSet ==> Distinct(items)
    ensures PublishItems(cfg, tokens, st, items, asSet) == Step(Success(items), st)
    decreases items
  {
    if items != [] {
      var n := |items| - 1;
      var front, last := items[..n], items[n];
      NoScratchSplit(VisitedItems(front), Visited(last));
      PrefixKeeps(items, asSet);
      ItemsUnchanged(cfg, tokens, st, front, asSet);
      ValueUnchanged(cfg, tokens, st, last);
      ItemsSnoc(cfg, tokens, st, items, n, asSet, front, st, Success(last), st);
      assert items[..n + 1] == items;
    }
  }

  /** Dropping the last element keeps a list well formed and distinct, and adding it back restores the list. */
  lemma PrefixKeeps(items: seq<Value>, asSet: bool)
    requires items != [] && AllWellFormed(items)
    requires asSet ==> Distinct(items)
    ensures var n := |items| - 1;
            && AllWellFormed(items[..n])
            && (asSet ==> Distinct(items[..n]))
            && AddItem(items[..n], items[n], asSet) == items
  {
    var n := |items| - 1;
    var front, last := items[..n], items[n];
    assert AllWellFormed(front) by {
      forall i | 0 <= i < n ensures WellFormed(front[i]) {
        assert front[i] == items[i];
      }
    }
    if asSet {
      assert Distinct(front) by {
        forall i, j | 0 <= i < j < n ensures front[i] != front[j] {
          assert front[i] == items[i] && front[j] == items[j];
        }
      }
      assert last !in front by {
        forall i | 0 <= i < n ensures front[i] != last {
          assert front[i] == items[i];
        }
      }
    }
    assert front + [last] == items;
  }

  lemma {:induction false} EntriesUnchanged(cfg: Config, tokens: nat -> string, st: PubState, es: seq<(Value, Value)>)
    requires AllWellFormedValues(es) && ScratchPaths(VisitedEntries(es)) == []
    ensures PublishEntries(cfg, tokens, st, es) == Step(Success(es), st)
    decreases es
  {
    if es != [] {
      var front := es[..|es| - 1];
      var last := es[|es| - 1];
      NoScratchSplit(VisitedEntries(front), VisitedEntry(last));
      assert AllWellFormedValues(front) by {
        forall i | 0 <= i < |front| ensures EntryWellFormed(front[i]) {
          assert front[i] == es[i];
        }
      }
      EntriesUnchanged(cfg, tokens, st, front);
      EntryUnchanged(cfg, tokens, st, last);
      assert front + [(last.0, last.1)] == es;
      var o := PublishEntries(cfg, tokens, st, es);
      assert o.result == Success(es) && o.state == st;
    }
  }

  /** Neither half of a concatenation without scratch paths has one. */
  lemma NoScratchSplit(a: seq<string>, b: seq<string>)
    requires ScratchPaths(a + b) == []
    ensures ScratchPaths(a) == [] && ScratchPaths(b) == []
  {
    ScratchPathsAppend(a, b);
  }

  lemma {:induction false} EntryUnchanged(cfg: Config, tokens: nat -> string, st: PubState, e: (Value, Value))
    requires EntryWellFormed(e) && ScratchPaths(VisitedEntry(e)) == []
    ensures PublishEntry(cfg, tokens, st, e) == Step(Success(e.1), st)
    decreases e
  {
    ValueUnchanged(cfg, tokens, st, e.1);
  }

  /* ---------- shape preservation ---------- */

  /**
   * `w` has the shape of `v`: strings outside /tmp/ and opaque values are
   * kept, a scratch string becomes a string, lists and tuples keep their
   * kind, length and element order, dicts keep their keys in order, and a
   * rebuilt set holds only images of the original elements.
   */
  predicate SameShape(v: Value, w: Value)
    decreases v
  {
    match v
    case Str(s) => if IsScratchPath(s) then w.Str? else w == v
    case List(items) => w.List? && ItemsShape(items, w.items)
    case Tuple(items) => w.Tuple? && ItemsShape(items, w.items)
    case Set(items) => w.Set? && Covered(items, w.items)
    case Dict(es) => w.Dict? && EntriesShape(es, w.entries)
    case Other(_) => w == v
  }

  predicate ItemsShape(items: seq<Value>, ws: seq<Value>)
    decreases items
  {
    |ws| == |items| && forall i :: 0 <= i < |items| ==> SameShape(items[i], ws[i])
  }

  /** No more elements than before, each the image of some original element. */
  predicate Covered(items: seq<Value>, ws: seq<Value>)
    decreases items
  {
    && |ws| <= |items|
    && forall j :: 0 <= j < |ws| ==> exists i :: 0 <= i < |items| && SameShape(items[i], ws[j])
  }

  predicate EntriesShape(es: seq<(Value, Value)>, fs: seq<(Value, Value)>)
    decreases es
  {
    |fs| == |es| && forall i :: 0 <= i < |es| ==> EntryShape(es[i], fs[i])
  }

  predicate EntryShape(e: (Value, Value), f: (Value, Value))
    decreases e
  {
    f.0 == e.0 && SameShape(e.1, f.1)
  }

  /** A walk that completes returns a value of the same shape. */
  lemma {:induction false} ValueShape(cfg: Config, tokens: nat -> string, st: PubState, v: Value)
    requires PublishValue(cfg, tokens, st, v).result.Success?
    ensures SameShape(v, PublishValue(cfg, tokens, st, v).result.value)
    decreases v
  {
    match v
    case Str(s) =>
    case List(items) => ItemsShapeKept(cfg, tokens, st, items, false);
    case Tuple(items) => ItemsShapeKept(cfg, tokens, st, items, false);
    case Set(items) => ItemsShapeKept(cfg, tokens, st, items, true);
    case Dict(es) => EntriesShapeKept(cfg, tokens, st, es);
    case Other(_) =>
  }

  lemma {:induction false} ItemsShapeKept(cfg: Config, tokens: nat -> string, st: PubState, items: seq<Value>, asSet: bool)
    requires PublishItems(cfg, tokens, st, items, asSet).result.Success?
    ensures var ws := PublishItems(cfg, tokens, st, items, asSet).result.value;
            if asSet then Covered(items, ws) else ItemsShape(items, ws)
    decreases items
  {
    if items != [] {
      var n := |items| - 1;
      var front := items[..n];
      var o := PublishItems(cfg, tokens, st, front, asSet);
      var last := PublishValue(cfg, tokens, o.state, items[n]);
      ItemsShapeKept(cfg, tokens, st, front, asSet);
      ValueShape(cfg, tokens, o.state, items[n]);
      var fw := o.result.value;
      var ws := PublishItems(cfg, tokens, st, items, asSet).result.value;
      assert ws == AddItem(fw, last.result.value, asSet);
      if asSet {
        forall j | 0 <= j < |ws|
          ensures exists i :: 0 <= i < |items| && SameShape(items[i], ws[j])
        {
          if j < |fw| {
            var i :| 0 <= i < |front| && SameShape(front[i], fw[j]);
            assert items[i] == front[i] && ws[j] == fw[j];
          } else {
            assert ws[j] == last.result.value && SameShape(items[n], ws[j]);
          }
        }
      } else {
        forall i | 0 <= i < |items|
          ensures SameShape(items[i], ws[i])
        {
          if i < n {
            assert items[i] == front[i] && ws[i] == fw[i];
          }
        }
      }
    }
  }

  lemma {:induction false} EntriesShapeKept(cfg: Config, tokens: nat -> string, st: PubState, es: seq<(Value, Value)>)
    requires PublishEntries(cfg, tokens, st, es).result.Success?
    ensures EntriesShape(es, PublishEntries(cfg, tokens, st, es).result.value)
    decreases es
  {
    if es != [] {
      var n := |es| - 1;
      var front := es[..n];
      var o := PublishEntries(cfg, tokens, st, front);
      var last := PublishEntry(cfg, tokens, o.state, es[n]);
      EntriesShapeKept(cfg, tokens, st, front);
      EntryShapeKept(cfg, tokens, o.state, es[n]);
      var fw := o.result.value;
      var ws := PublishEntries(cfg, tokens, st, es).result.value;
      assert ws == fw + [(es[n].0, last.result.value)];
      forall i | 0 <= i < |es|
        ensures EntryShape(es[i], ws[i])
      {
        if i < n {
          assert es[i] == front[i] && ws[i] == fw[i];
        }
      }
    }
  }

  lemma {:induction false} EntryShapeKept(cfg: Config, tokens: nat -> string, st: PubState, e: (Value, Value))
    requires PublishEntry(cfg, tokens, st, e).result.Success?
    ensures EntryShape(e, (e.0, PublishEntry(cfg, tokens, st, e).result.value))
    decreases e
  {
    ValueShape(cfg, tokens, st, e.1);
  }

  /* ---------- one pair per scratch path, in visit order ---------- */

  /** The URL published for `path` when `token` is drawn for it. */
  function PublishedUrl(cfg: Config, token: string, path: string): string
  {
    PublicUrl(cfg, PublicName(token, Basename(AbsPath(cfg.cwd, path))))
  }

  /** The URLs of a run of pairs, in order. */
  function Urls(ps: seq<Pair>): (r: seq<string>)
    ensures |r| == |ps|
    ensures forall i :: 0 <= i < |ps| ==> r[i] == ps[i].url
  {
    if ps == [] then [] else Urls(ps[..|ps| - 1]) + [ps[|ps| - 1].url]
  }

  lemma {:induction false} UrlsAppend(x: seq<Pair>, y: seq<Pair>)
    ensures Urls(x + y) == Urls(x) + Urls(y)
  {
    var u := Urls(x + y);
    assert u == Urls(x) + Urls(y) by {
      forall i | 0 <= i < |u| ensures u[i] == (Urls(x) + Urls(y))[i] {
        if i < |x| {
          assert (x + y)[i] == x[i];
        } else {
          assert (x + y)[i] == y[i - |x|];
        }
      }
    }
  }

  /** `PublishedUrl` as a function of the token's number and the path. */
  function UrlFor(cfg: Config, tokens: nat -> string): (nat, string) -> string
  {
    (n: nat, path: string) => PublishedUrl(cfg, tokens(n), path)
  }

  /** The URLs `url` builds for `paths`, numbering tokens from `drawn` on. */
  function BuildUrls(url: (nat, string) -> string, drawn: nat, paths: seq<string>): (r: seq<string>)
    ensures |r| == |paths|
  {
    if paths == [] then []
    else BuildUrls(url, drawn, paths[..|paths| - 1]) + [url(drawn + |paths| - 1, paths[|paths| - 1])]
  }

  /** The `i`-th URL is built from the `i`-th path and the `i`-th token after `drawn`. */
  lemma {:induction false} BuildUrlsAt(url: (nat, string) -> string, drawn: nat, paths: seq<string>, i: nat)
    requires i < |paths|
    ensures BuildUrls(url, drawn, paths)[i] == url(drawn + i, paths[i])
    decreases |paths|
  {
    var n := |paths| - 1;
    if i < n {
      BuildUrlsAt(url, drawn, paths[..n], i);
      assert paths[..n][i] == paths[i];
    }
  }

  lemma {:induction false} BuildUrlsAppend(url: (nat, string) -> string, drawn: nat, a: seq<string>, b: seq<string>)
    ensures BuildUrls(url, drawn, a + b) == BuildUrls(url, drawn, a) + BuildUrls(url, drawn + |a|, b)
    decreases |b|
  {
    if b == [] {
      assert a + b == a;
    } else {
      var n := |b| - 1;
      assert (a + b)[..|a + b| - 1] == a + b[..n];
      assert (a + b)[|a + b| - 1] == b[n];
      BuildUrlsAppend(url, drawn, a, b[..n]);
      assert drawn + |a + b| - 1 == drawn + |a| + |b| - 1;
    }
  }

  /**
   * From `st` to `st'` the walk handled `paths` in order: one token each,
   * the earlier pairs kept, and one new pair per path, whose URLs are the
   * expected ones for those paths and tokens.
   */
  predicate Accounts(url: (nat, string) -> string, st: PubState, paths: seq<string>, st': PubState)
  {
    && st'.drawn == st.drawn + |paths|
    && |st.published| <= |st'.published|
    && st'.published[..|st.published|] == st.published
    && Urls(st'.published[|st.published|..]) == BuildUrls(url, st.drawn, paths)
  }

  lemma AccountsChain(url: (nat, string) -> string, st: PubState, a: seq<string>, st1: PubState, b: seq<string>, st2: PubState)
    requires Accounts(url, st, a, st1) && Accounts(url, st1, b, st2)
    ensures Accounts(url, st, a + b, st2)
  {
    var k, k1 := |st.published|, |st1.published|;
    var p1, p2 := st1.published, st2.published;
    assert p2[..k] == p2[..k1][..k];
    assert p2[k..] == p1[k..] + p2[k1..] by {
      assert p2[k..] == p2[k..k1] + p2[k1..];
      assert p2[k..k1] == p2[..k1][k..];
    }
    UrlsAppend(p1[k..], p2[k1..]);
    BuildUrlsAppend(url, st.drawn, a, b);
  }

  /** What `Accounts` says of the `i`-th new pair: its URL is built from the `i`-th path and token. */
  lemma AccountsUrlAt(url: (nat, string) -> string, st: PubState, paths: seq<string>, st': PubState, i: nat)
    requires Accounts(url, st, paths, st') && i < |paths|
    ensures |st.published| + i < |st'.published|
    ensures st'.published[|st.published| + i].url == url(st.drawn + i, paths[i])
  {
    var q := st'.published[|st.published|..];
    assert Urls(q)[i] == q[i].url;
    BuildUrlsAt(url, st.drawn, paths, i);
  }

  /** A published scratch string appends one pair, carrying the URL built from its token. */
  lemma ScratchStrPair(cfg: Config, tokens: nat -> string, st: PubState, s: string)
    requires IsScratchPath(s)
    requires PublishStr(cfg, tokens, st, s).result.Success?
    ensures var o := PublishStr(cfg, tokens, st, s).state;
            && o.drawn == st.drawn + 1
            && exists preview :: o.published == st.published + [Pair(preview, PublishedUrl(cfg, tokens(st.drawn), s))]
  {
    var c := ConvertTmpToSavePath(cfg, st.fs, s, tokens(st.drawn));
    var mv := MoveRaw(st.fs, s, Resolve(cfg.cwd, s), Resolve(cfg.cwd, c.value.0));
    assert c.value.1 == PublicName(tokens(st.drawn), Basename(AbsPath(cfg.cwd, s)));
    assert PublishStr(cfg, tokens, st, s).state.published == st.published + [Pair(mv.0, PublishedUrl(cfg, tokens(st.drawn), s))];
  }

  lemma BuildUrlsOne(url: (nat, string) -> string, drawn: nat, path: string)
    ensures BuildUrls(url, drawn, [path]) == [url(drawn, path)]
  {
    assert [path][..0] == [];
  }

  /** A string step accounts for the string when it is a scratch path and for nothing otherwise. */
  lemma StrAccounts(cfg: Config, tokens: nat -> string, st: PubState, s: string)
    requires PublishStr(cfg, tokens, st, s).result.Success?
    ensures Accounts(UrlFor(cfg, tokens), st, TmpPaths(Str(s)), PublishStr(cfg, tokens, st, s).state)
  {
    var o := PublishStr(cfg, tokens, st, s).state;
    var k := |st.published|;
    assert [s][..0] == [];
    assert TmpPaths(Str(s)) == if IsScratchPath(s) then [s] else [];
    if IsScratchPath(s) {
      ScratchStrPair(cfg, tokens, st, s);
      var preview :| o.published == st.published + [Pair(preview, PublishedUrl(cfg, tokens(st.drawn), s))];
      var pair := Pair(preview, UrlFor(cfg, tokens)(st.drawn, s));
      assert o.published == st.published + [pair];
      assert o.published[..k] == st.published && o.published[k..] == [pair];
      assert Urls([pair]) == [pair.url];
      BuildUrlsOne(UrlFor(cfg, tokens), st.drawn, s);
    } else {
      assert o == st;
      assert st.published[..k] == st.published && st.published[k..] == [];
    }
  }

  /**
   * A walk that completes draws one token per visited scratch path and
   * appends, after the pairs already there, one pair per path in visit
   * order, whose URL is built from that path's token and base name.
   */
  lemma {:induction false} ValueAccounts(cfg: Config, tokens: nat -> string, st: PubState, v: Value)
    requires PublishValue(cfg, tokens, st, v).result.Success?
    ensures Accounts(UrlFor(cfg, tokens), st, TmpPaths(v), PublishValue(cfg, tokens, st, v).state)
    decreases v
  {
    match v
    case Str(s) => StrAccounts(cfg, tokens, st, s);
    case List(items) => ItemsAccounts(cfg, tokens, st, items, false);
    case Tuple(items) => ItemsAccounts(cfg, tokens, st, items, false);
    case Set(items) => ItemsAccounts(cfg, tokens, st, items, true);
    case Dict(es) => EntriesAccounts(cfg, tokens, st, es);
    case Other(_) =>
      assert TmpPaths(v) == [];
      assert st.published[..|st.published|] == st.published && st.published[|st.published|..] == [];
  }

  lemma {:induction false} ItemsAccounts(cfg: Config, tokens: nat -> string, st: PubState, items: seq<Value>, asSet: bool)
    requires PublishItems(cfg, tokens, st, items, asSet).result.Success?
    ensures Accounts(UrlFor(cfg, tokens), st, ScratchPaths(VisitedItems(items)), PublishItems(cfg, tokens, st, items, asSet).state)
    decreases items
  {
    if items == [] {
      assert st.published[..|st.published|] == st.published && st.published[|st.published|..] == [];
    } else {
      var n := |items| - 1;
      var o := PublishItems(cfg, tokens, st, items[..n], asSet);
      ItemsAccounts(cfg, tokens, st, items[..n], asSet);
      ValueAccounts(cfg, tokens, o.state, items[n]);
      ScratchPathsAppend(VisitedItems(items[..n]), Visited(items[n]));
      AccountsChain(UrlFor(cfg, tokens), st, ScratchPaths(VisitedItems(items[..n])), o.state,
                    TmpPaths(items[n]), PublishValue(cfg, tokens, o.state, items[n]).state);
    }
  }

  lemma {:induction false} EntriesAccounts(cfg: Config, tokens: nat -> string, st: PubState, es: seq<(Value, Value)>)
    requires PublishEntries(cfg, tokens, st, es).result.Success?
    ensures Accounts(UrlFor(cfg, tokens), st, ScratchPaths(VisitedEntries(es)), PublishEntries(cfg, tokens, st, es).state)
    decreases es
  {
    if es == [] {
      assert st.published[..|st.published|] == st.published && st.published[|st.published|..] == [];
    } else {
      var n := |es| - 1;
      var o := PublishEntries(cfg, tokens, st, es[..n]);
      EntriesAccounts(cfg, tokens, st, es[..n]);
      EntryAccounts(cfg, tokens, o.state, es[n]);
      ScratchPathsAppend(VisitedEntries(es[..n]), VisitedEntry(es[n]));
      AccountsChain(UrlFor(cfg, tokens), st, ScratchPaths(VisitedEntries(es[..n])), o.state,
                    ScratchPaths(VisitedEntry(es[n])), PublishEntry(cfg, tokens, o.state, es[n]).state);
    }
  }

  lemma {:induction false} EntryAccounts(cfg: Config, tokens: nat -> string, st: PubState, e: (Value, Value))
    requires PublishEntry(cfg, tokens, st, e).result.Success?
    ensures Accounts(UrlFor(cfg, tokens), st, ScratchPaths(VisitedEntry(e)), PublishEntry(cfg, tokens, st, e).state)
    decreases e
  {
    ValueAccounts(cfg, tokens, st, e.1);
  }

  /**
   * A walk that completes keeps the shape of the value, draws one token
   * per visited scratch path, and appends one pair per path in visit order,
   * whose URL is built from that path's token and base name.
   */
  lemma PublishedWalk(cfg: Config, tokens: nat -> string, st: PubState, v: Value)
    requires PublishValue(cfg, tokens, st, v).result.Success?
    ensures var o := PublishValue(cfg, tokens, st, v);
            && SameShape(v, o.result.value)
            && o.state.drawn == st.drawn + |TmpPaths(v)|
            && |o.state.published| == |st.published| + |TmpPaths(v)|
            && o.state.published[..|st.published|] == st.published
            && forall i :: 0 <= i < |TmpPaths(v)| ==>
                 o.state.published[|st.published| + i].url == PublishedUrl(cfg, tokens(st.drawn + i), TmpPaths(v)[i])
  {
    var o := PublishValue(cfg, tokens, st, v);
    ValueShape(cfg, tokens, st, v);
    ValueAccounts(cfg, tokens, st, v);
    forall i | 0 <= i < |TmpPaths(v)|
      ensures o.state.published[|st.published| + i].url == PublishedUrl(cfg, tokens(st.drawn + i), TmpPaths(v)[i])
    {
      AccountsUrlAt(UrlFor(cfg, tokens), st, TmpPaths(v), o.state, i);
    }
  }
}
