/**
 * `_deep_publish_tmp_paths`: walks a returned value depth first, replaces
 * every visited string that starts with "/tmp/" by a public URL, moves the
 * file or directory it names into the save directory, and appends one
 * (preview, url) pair per published string to a shared list.
 *
 * `PublishValue` and its companions define the walk on values; the class
 * `Publisher` performs it in place, over a mutable filesystem and the shared
 * list, and is proved to agree with them.
 */
module Publish {
  import opened Common
  import opened Paths
  import opened FileStore
  import opened Translate
  import opened Values

  /** One `(preview, url)` entry of the shared list. */
  datatype Pair = Pair(preview: string, url: string)

  /**
   * What the walk reads and changes: the filesystem, how many tokens
   * `uuid4` has handed out so far, and the shared list.
   */
  datatype PubState = PubState(fs: FileSystem, drawn: nat, published: seq<Pair>)

  /** The outcome of one step: its result (or the exception it raised) and the state after it. */
  datatype Step<T> = Step(result: Result<T, PathError>, state: PubState)

  /** The preview text and the filesystem after publishing the node found at `src`. */
  function MoveNode(fs: FileSystem, src: string, dst: string): (string, FileSystem)
  {
    if src in fs && fs[src].File? then (ReadPreview(fs[src]), fs[dst := fs[src]] - {src})
    else if src in fs && fs[src].Dir? then (DirectoryMarker, fs[dst := fs[src]] - {src})
    else ("", fs)
  }

  /**
   * The preview and the filesystem after the `isfile`/`isdir` branches,
   * which see the string as written: the node at `src` when `data` walks,
   * and neither a file nor a directory otherwise.
   */
  function MoveRaw(fs: FileSystem, data: string, src: string, dst: string): (string, FileSystem)
  {
    if RawResolves(fs, data) then MoveNode(fs, src, dst) else ("", fs)
  }

  /**
   * The string case: translate (on the normalised path), then copy, preview
   * and remove (on the string as written), record the pair.
   */
  function PublishStr(cfg: Config, tokens: nat -> string, st: PubState, data: string): Step<Value>
  {
    if !IsScratchPath(data) then Step(Success(Str(data)), st)
    else
      var c := ConvertTmpToSavePath(cfg, st.fs, data, tokens(st.drawn));
      if c.Failure? then Step(Failure(c.error), st)
      else
        var mv := MoveRaw(st.fs, data, Resolve(cfg.cwd, data), Resolve(cfg.cwd, c.value.0));
        var url := PublicUrl(cfg, c.value.1);
        Step(Success(Str(url)), PubState(mv.1, st.drawn + 1, st.published + [Pair(mv.0, url)]))
  }

  /** The string case once the conversion has succeeded. */
  lemma PublishStrMoves(cfg: Config, tokens: nat -> string, st: PubState, data: string)
    requires IsScratchPath(data)
    requires ConvertTmpToSavePath(cfg, st.fs, data, tokens(st.drawn)).Success?
    ensures var c := ConvertTmpToSavePath(cfg, st.fs, data, tokens(st.drawn)).value;
            var mv := MoveRaw(st.fs, data, Resolve(cfg.cwd, data), Resolve(cfg.cwd, c.0));
            var url := PublicUrl(cfg, c.1);
            PublishStr(cfg, tokens, st, data) == Step(Success(Str(url)), PubState(mv.1, st.drawn + 1, st.published + [Pair(mv.0, url)]))
  {
    var c := ConvertTmpToSavePath(cfg, st.fs, data, tokens(st.drawn)).value;
    var mv := MoveRaw(st.fs, data, Resolve(cfg.cwd, data), Resolve(cfg.cwd, c.0));
    var url := PublicUrl(cfg, c.1);
    var o := PublishStr(cfg, tokens, st, data);
    assert o.result == Success(Str(url));
    assert o.state.fs == mv.1;
    assert o.state.drawn == st.drawn + 1;
    assert o.state.published == st.published + [Pair(mv.0, url)];
  }

  /** `modified_list.append(x)`, or `modified_set.add(x)` when rebuilding a set. */
  function AddItem(acc: seq<Value>, x: Value, asSet: bool): seq<Value>
  {
    if asSet && x in acc then acc else acc + [x]
  }

  /**
   * Adding keeps every earlier element and contributes exactly `x`; a list
   * appends it at the end, and a set built of distinct elements stays so.
   */
  lemma AddItemMembers(acc: seq<Value>, x: Value, asSet: bool)
    ensures var r := AddItem(acc, x, asSet);
            && (forall y :: y in r <==> y in acc || y == x)
            && (!asSet ==> r == acc + [x])
            && (asSet && Distinct(acc) ==> Distinct(r))
  {
  }

  function PublishValue(cfg: Config, tokens: nat -> string, st: PubState, v: Value): Step<Value>
    decreases v
  {
    match v
    case Str(s) => PublishStr(cfg, tokens, st, s)
    case List(items) =>
      var o := PublishItems(cfg, tokens, st, items, false);
      Step(if o.result.Success? then Success(List(o.result.value)) else Failure(o.result.error), o.state)
    case Tuple(items) =>
      var o := PublishItems(cfg, tokens, st, items, false);
      Step(if o.result.Success? then Success(Tuple(o.result.value)) else Failure(o.result.error), o.state)
    case Set(items) =>
      var o := PublishItems(cfg, tokens, st, items, true);
      Step(if o.result.Success? then Success(Set(o.result.value)) else Failure(o.result.error), o.state)
    case Dict(es) =>
      var o := PublishEntries(cfg, tokens, st, es);
      Step(if o.result.Success? then Success(Dict(o.result.value)) else Failure(o.result.error), o.state)
    case Other(_) => Step(Success(v), st)
  }

  /** The `for item in data` loop of the list, tuple and set cases; an exception stops it. */
  function PublishItems(cfg: Config, tokens: nat -> string, st: PubState, items: seq<Value>, asSet: bool): Step<seq<Value>>
    decreases items
  {
    if items == [] then Step(Success([]), st)
    else
      var front := PublishItems(cfg, tokens, st, items[..|items| - 1], asSet);
      if front.result.Failure? then front
      else
        var last := PublishValue(cfg, tokens, front.state, items[|items| - 1]);
        if last.result.Failure? then Step(Failure(last.result.error), last.state)
        else Step(Success(AddItem(front.result.value, last.result.value, asSet)), last.state)
  }

  /** The `for key, value in data.items()` loop: keys are kept, values published. */
  function PublishEntries(cfg: Config, tokens: nat -> string, st: PubState, es: seq<(Value, Value)>): Step<seq<(Value, Value)>>
    decreases es
  {
    if es == [] then Step(Success([]), st)
    else
      var front := PublishEntries(cfg, tokens, st, es[..|es| - 1]);
      if front.result.Failure? then front
      else
        var last := PublishEntry(cfg, tokens, front.state, es[|es| - 1]);
        if last.result.Failure? then Step(Failure(last.result.error), last.state)
        else Step(Success(front.result.value + [(es[|es| - 1].0, last.result.value)]), last.state)
  }

  function PublishEntry(cfg: Config, tokens: nat -> string, st: PubState, e: (Value, Value)): Step<Value>
    decreases e
  {
    PublishValue(cfg, tokens, st, e.1)
  }

  /** One more element of the loop: the walk of `items[..i + 1]` from the walk of `items[..i]`. */
  lemma ItemsSnoc(cfg: Config, tokens: nat -> string, st0: PubState, items: seq<Value>, i: nat, asSet: bool,
                  done: seq<Value>, st: PubState, x: Result<Value, PathError>, st': PubState)
    requires i < |items|
    requires PublishItems(cfg, tokens, st0, items[..i], asSet) == Step(Success(done), st)
    requires PublishValue(cfg, tokens, st, items[i]) == Step(x, st')
    ensures PublishItems(cfg, tokens, st0, items[..i + 1], asSet) ==
              if x.Failure? then Step(Failure(x.error), st') else Step(Success(AddItem(done, x.value, asSet)), st')
  {
    assert items[..i + 1][..i] == items[..i];
  }

  lemma EntriesSnoc(cfg: Config, tokens: nat -> string, st0: PubState, es: seq<(Value, Value)>, i: nat,
                    done: seq<(Value, Value)>, st: PubState, x: Result<Value, PathError>, st': PubState)
    requires i < |es|
    requires PublishEntries(cfg, tokens, st0, es[..i]) == Step(Success(done), st)
    requires PublishEntry(cfg, tokens, st, es[i]) == Step(x, st')
    ensures PublishEntries(cfg, tokens, st0, es[..i + 1]) ==
              if x.Failure? then Step(Failure(x.error), st') else Step(Success(done + [(es[i].0, x.value)]), st')
  {
    assert es[..i + 1][..i] == es[..i];
  }

  /** Once an element raises, the rest of the loop does not run. */
  lemma {:induction false} ItemsFailurePersists(cfg: Config, tokens: nat -> string, st: PubState, items: seq<Value>, k: nat, asSet: bool)
    requires k <= |items|
    requires PublishItems(cfg, tokens, st, items[..k], asSet).result.Failure?
    ensures PublishItems(cfg, tokens, st, items, asSet) == PublishItems(cfg, tokens, st, items[..k], asSet)
    decreases |items| - k
  {
    if k < |items| {
      assert items[..k + 1][..k] == items[..k];
      ItemsFailurePersists(cfg, tokens, st, items, k + 1, asSet);
    } else {
      assert items[..k] == items;
    }
  }

  lemma {:induction false} EntriesFailurePersists(cfg: Config, tokens: nat -> string, st: PubState, es: seq<(Value, Value)>, k: nat)
    requires k <= |es|
    requires PublishEntries(cfg, tokens, st, es[..k]).result.Failure?
    ensures PublishEntries(cfg, tokens, st, es) == PublishEntries(cfg, tokens, st, es[..k])
    decreases |es| - k
  {
    if k < |es| {
      assert es[..k + 1][..k] == es[..k];
      EntriesFailurePersists(cfg, tokens, st, es, k + 1);
    } else {
      assert es[..k] == es;
    }
  }

  /** The string case after a conversion, given the outcome of the raw move and the new state. */
  lemma ConvertedStep(cfg: Config, tokens: nat -> string, st: PubState, data: string, dstFilepath: string, dstFilename: string,
                      preview: string, r: Result<Value, PathError>, st': PubState)
    requires IsScratchPath(data)
    requires ConvertTmpToSavePath(cfg, st.fs, data, tokens(st.drawn)) == Success((dstFilepath, dstFilename))
    requires (preview, st'.fs) == MoveRaw(st.fs, data, Resolve(cfg.cwd, data), Resolve(cfg.cwd, dstFilepath))
    requires r == Success(Str(PublicUrl(cfg, dstFilename)))
    requires st'.drawn == st.drawn + 1 && st'.published == st.published + [Pair(preview, PublicUrl(cfg, dstFilename))]
    ensures Step(r, st') == PublishStr(cfg, tokens, st, data)
  {
    PublishStrMoves(cfg, tokens, st, data);
  }

  /**
   * The publisher's mutable state: the filesystem, the token stream that
   * stands for `uuid4`, the number of tokens drawn, and the shared list of
   * `(preview, url)` pairs.
   */
  class Publisher {
    const cfg: Config
    const tokens: nat -> string
    var fs: FileSystem
    var drawn: nat
    var published: seq<Pair>

    function State(): PubState
      reads this
    {
      PubState(fs, drawn, published)
    }

    constructor (cfg: Config, tokens: nat -> string, fs: FileSystem)
      ensures this.cfg == cfg && this.tokens == tokens
      ensures State() == PubState(fs, 0, [])
    {
      this.cfg := cfg;
      this.tokens := tokens;
      this.fs := fs;
      this.drawn := 0;
      this.published := [];
    }

    /** The top-level call: a fresh shared list, then the walk; returns the value and the list. */
    method PublishTmpPaths(data: Value) returns (r: Result<Value, PathError>, changed: seq<Pair>)
      modifies this
      ensures var o := PublishValue(cfg, tokens, PubState(old(fs), old(drawn), []), data);
              r == o.result && State() == o.state && changed == published
    {
      published := [];
      r := Publish(data);
      changed := published;
    }

    method PublishString(data: string) returns (r: Result<Value, PathError>)
      modifies this
      ensures Step(r, State()) == PublishStr(cfg, tokens, old(State()), data)
    {
      if !IsScratchPath(data) {
        return Success(Str(data));
      }
      var converted := ConvertTmpToSavePath(cfg, fs, data, tokens(drawn));
      if converted.Failure? {
        return Failure(converted.error);
      }
      r := PublishConverted(data, converted.value.0, converted.value.1);
    }

    /** The string case after a successful conversion: copy, preview and remove, then record the pair. */
    method PublishConverted(data: string, dstFilepath: string, dstFilename: string) returns (r: Result<Value, PathError>)
      requires IsScratchPath(data)
      requires ConvertTmpToSavePath(cfg, fs, data, tokens(drawn)) == Success((dstFilepath, dstFilename))
      modifies this
      ensures Step(r, State()) == PublishStr(cfg, tokens, old(State()), data)
    {
      ghost var st0 := PubState(fs, drawn, published);
      var src, dst := Resolve(cfg.cwd, data), Resolve(cfg.cwd, dstFilepath);
      var url := PublicUrl(cfg, dstFilename);
      var preview := MoveAsWritten(data, src, dst);
      drawn := drawn + 1;
      published := published + [Pair(preview, url)];
      r := Success(Str(url));
      ConvertedStep(cfg, tokens, st0, data, dstFilepath, dstFilename, preview, r, State());
    }

    /**
     * The `isfile(data)`/`isdir(data)` branches: move the node at `src` when
     * the string as written resolves, otherwise leave everything as it is.
     */
    method MoveAsWritten(data: string, src: string, dst: string) returns (preview: string)
      modifies this
      ensures (preview, fs) == MoveRaw(old(fs), data, src, dst)
      ensures drawn == old(drawn) && published == old(published)
    {
      preview := "";
      if RawResolves(fs, data) {
        preview := MoveIn(src, dst);
      }
    }

    /** `shutil.copy` or `shutil.copytree`, the preview read, then `os.remove` or `shutil.rmtree`. */
    method MoveIn(src: string, dst: string) returns (preview: string)
      modifies this
      ensures (preview, fs) == MoveNode(old(fs), src, dst)
      ensures drawn == old(drawn) && published == old(published)
    {
      preview := "";
      if src in fs && fs[src].File? {
        var node := fs[src];
        fs := fs[dst := node];
        preview := ReadPreview(node);
        fs := fs - {src};
      } else if src in fs && fs[src].Dir? {
        var node := fs[src];
        fs := fs[dst := node];
        preview := DirectoryMarker;
        fs := fs - {src};
      }
    }

    method Publish(data: Value) returns (r: Result<Value, PathError>)
      modifies this
      decreases data
      ensures Step(r, State()) == PublishValue(cfg, tokens, old(State()), data)
    {
      match data
      case Str(s) =>
        r := PublishString(s);
      case List(items) =>
        var rs := PublishAll(items, false);
        r := if rs.Success? then Success(List(rs.value)) else Failure(rs.error);
      case Tuple(items) =>
        var rs := PublishAll(items, false);
        r := if rs.Success? then Success(Tuple(rs.value)) else Failure(rs.error);
      case Set(items) =>
        var rs := PublishAll(items, true);
        r := if rs.Success? then Success(Set(rs.value)) else Failure(rs.error);
      case Dict(es) =>
        var rs := PublishDict(es);
        r := if rs.Success? then Success(Dict(rs.value)) else Failure(rs.error);
      case Other(_) =>
        r := Success(data);
    }

    /** The loop shared by the list, tuple and set cases. */
    method PublishAll(items: seq<Value>, asSet: bool) returns (r: Result<seq<Value>, PathError>)
      modifies this
      decreases items
      ensures Step(r, State()) == PublishItems(cfg, tokens, old(State()), items, asSet)
    {
      var modified: seq<Value> := [];
      var i := 0;
      while i < |items|
        invariant 0 <= i <= |items|
        invariant Step(Success(modified), State()) == PublishItems(cfg, tokens, old(State()), items[..i], asSet)
      {
        ghost var st := State();
        var x := Publish(items[i]);
        ItemsSnoc(cfg, tokens, old(State()), items, i, asSet, modified, st, x, State());
        if x.Failure? {
          ItemsFailurePersists(cfg, tokens, old(State()), items, i + 1, asSet);
          return Failure(x.error);
        }
        modified := AddItem(modified, x.value, asSet);
        i := i + 1;
      }
      assert items[..i] == items;
      r := Success(modified);
    }

    method PublishDict(es: seq<(Value, Value)>) returns (r: Result<seq<(Value, Value)>, PathError>)
      modifies this
      decreases es
      ensures Step(r, State()) == PublishEntries(cfg, tokens, old(State()), es)
    {
      var modified: seq<(Value, Value)> := [];
      var i := 0;
      while i < |es|
        invariant 0 <= i <= |es|
        invariant Step(Success(modified), State()) == PublishEntries(cfg, tokens, old(State()), es[..i])
      {
        ghost var st := State();
        var x := PublishDictValue(es[i]);
        EntriesSnoc(cfg, tokens, old(State()), es, i, modified, st, x, State());
        if x.Failure? {
          EntriesFailurePersists(cfg, tokens, old(State()), es, i + 1);
          return Failure(x.error);
        }
        modified := modified + [(es[i].0, x.value)];
        i := i + 1;
      }
      assert es[..i] == es;
      r := Success(modified);
    }

    method PublishDictValue(e: (Value, Value)) returns (r: Result<Value, PathError>)
      modifies this
      decreases e
      ensures Step(r, State()) == PublishEntry(cfg, tokens, old(State()), e)
    {
      r := Publish(e.1);
    }
  }
}
