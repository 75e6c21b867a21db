/**
 * The local filesystem as the publisher sees it: a map from canonical
 * absolute paths to nodes. A path string is looked up by resolving it with
 * `abspath` against the working directory.
 */
module FileStore {
  import opened Paths

  /**
   * A regular file (its characters and whether reading it as text
   * succeeds), a directory (its whole tree, copied and removed as a unit),
   * or anything else that exists (a socket, a device, a fifo).
   */
  datatype Node = File(text: string, readable: bool) | Dir(tree: map<string, Node>) | Special

  type FileSystem = map<string, Node>

  /** The number of characters `f.read(5000)` returns at most. */
  const PreviewLimit: nat := 5000

  const UnreadableMarker := "Error while reading file"
  const DirectoryMarker := "Can not preview directory"

  /** The key under which the operating system finds `p`. */
  function Resolve(cwd: string, p: string): string
  {
    AbsPath(cwd, p)
  }

  /** `os.path.exists(p)`. */
  predicate Exists(cwd: string, fs: FileSystem, p: string)
  {
    Resolve(cwd, p) in fs
  }

  /**
   * `p` is a directory to the operating system: a directory node, or a
   * path some node lies beneath.
   */
  predicate IsDirectory(fs: FileSystem, p: string)
  {
    if p in fs then fs[p].Dir? else exists k :: k in fs && StartsWith(k, p + "/")
  }

  /**
   * The operating system's walk over the components of a rooted path as
   * written, with `at` the components of the directory reached so far (kept as
   * `normpath` keeps them): a name that more of the path follows must be a
   * directory. A trailing "/" or "/." after a file, or a ".." after a name
   * that is missing or not a directory, ends the walk with nothing found.
   */
  predicate Walks(fs: FileSystem, comps: seq<string>, at: seq<string>)
    decreases |comps|
  {
    if comps == [] then true
    else
      var c := comps[0];
      if c == "" || c == "." then Walks(fs, comps[1..], at)
      else if c == ".." then Walks(fs, comps[1..], if at != [] then at[..|at| - 1] else at)
      else (|comps| == 1 || IsDirectory(fs, "/" + JoinSlash(at + [c]))) && Walks(fs, comps[1..], at + [c])
  }

  /**
   * `os.path.isfile(raw)` and `os.path.isdir(raw)` can only hold when the
   * rooted string `raw`, unnormalised, walks; the node they then see is the
   * one at `Resolve(cwd, raw)`.
   */
  predicate RawResolves(fs: FileSystem, raw: string)
  {
    Walks(fs, Split(raw), [])
  }

  /**
   * `os.path.exists(p)` for a string passed on as written, without being
   * normalised first: the node at its resolved key exists, and the
   * operating system's walk of the string (after the working directory,
   * when it is relative) gets there.
   */
  predicate ExistsAsWritten(cwd: string, fs: FileSystem, p: string)
  {
    Exists(cwd, fs, p) && RawResolves(fs, Join(cwd, p))
  }

  /** A rooted path in normal form with a single leading slash. */
  predicate Canonical(p: string)
  {
    StartsWith(p, "/") && !StartsWith(p, "//") && NormPath(p) == p
  }

  /** Every node on the way to `p` that the map holds is a directory. */
  predicate OnDirs(fs: FileSystem, p: string)
  {
    forall a :: a in fs && StartsWith(p, a + "/") ==> fs[a].Dir?
  }

  /** A name that a path lies beneath is a directory when it is held as a directory or not held at all. */
  lemma AncestorIsDirectory(fs: FileSystem, key: string, q: string)
    requires key in fs && OnDirs(fs, key) && StartsWith(key, q + "/")
    ensures IsDirectory(fs, q)
  {
  }

  /** Plain components leading to an existing node reached through directories walk. */
  lemma {:induction false} WalksPlain(fs: FileSystem, cs: seq<string>, at: seq<string>, key: string)
    requires AllPlain(cs) && AllPlain(at)
    requires key == "/" + JoinSlash(at + cs)
    requires key in fs && OnDirs(fs, key)
    ensures Walks(fs, cs, at)
    decreases |cs|
  {
    if cs != [] {
      var c := cs[0];
      var at' := at + [c];
      assert at + cs == at' + cs[1..];
      if |cs| > 1 {
        assert Plain(cs[1]);
        JoinSlashConcat(at', cs[1..]);
        var q := "/" + JoinSlash(at');
        assert key == q + "/" + JoinSlash(cs[1..]);
        assert key[..|q + "/"|] == q + "/";
        AncestorIsDirectory(fs, key, q);
      }
      assert AllPlain(cs[1..]) by {
        forall i | 0 <= i < |cs| - 1 ensures Plain(cs[1..][i]) {
          assert cs[1..][i] == cs[i + 1];
        }
      }
      WalksPlain(fs, cs[1..], at', key);
    }
  }

  /** A path written in normal form, naming a node reached through directories only, walks. */
  lemma CanonicalWalks(fs: FileSystem, p: string)
    requires Canonical(p)
    requires p in fs && OnDirs(fs, p)
    ensures RawResolves(fs, p)
  {
    NormPathRooted(p);
    var cs := NormComps(Split(p), true, []);
    assert LeadingSlashes(p) == 1;
    assert Slashes(1) == "/";
    assert p == "/" + JoinSlash(cs);
    SplitAfterSlash(JoinSlash(cs));
    PlainTail(cs);
    if cs == [] {
      assert Split(p) == ["", ""];
      assert Split(p)[1..] == [""];
    } else {
      assert Split(p) == [""] + cs;
      assert ([] + cs) == cs;
      WalksPlain(fs, cs, [], p);
      assert Split(p)[1..] == cs;
    }
  }

  /**
   * A scratch path written in normal form, naming a node reached through
   * directories only, is found by the operating system as written.
   */
  lemma CanonicalResolves(fs: FileSystem, p: string)
    requires StartsWith(p, "/tmp/") && NormPath(p) == p
    requires p in fs && OnDirs(fs, p)
    ensures RawResolves(fs, p)
  {
    assert p[1] == 't';
    CanonicalWalks(fs, p);
  }

  /** The pieces of "/d/f/". */
  lemma SplitTrailing(d: string, f: string)
    requires Plain(d) && Plain(f)
    ensures Split("/" + d + "/" + f + "/") == ["", d, f, ""]
  {
    assert "/" + d + "/" + f + "/" == "/" + (d + "/" + (f + "/" + ""));
    SplitAfterSlash(d + "/" + (f + "/" + ""));
    SplitConcat(d, f + "/" + "");
    SplitConcat(f, "");
    SplitNoSlash(d);
    SplitNoSlash(f);
    assert Split("") == [""];
  }

  /** `normpath` drops a trailing "/". */
  lemma NormTrailing(d: string, f: string)
    requires Plain(d) && Plain(f)
    ensures NormPath("/" + d + "/" + f + "/") == "/" + d + "/" + f
  {
    var p := "/" + d + "/" + f + "/";
    SplitTrailing(d, f);
    var rest := [d, f, ""];
    assert Split(p) == [""] + rest;
    NormSkipsEmpty([""], rest);
    assert rest == [d, f] + [""];
    NormCompsAppend([d, f], [""], true, []);
    NormCompsOfPlain([d, f], []);
    assert NormComps([""], true, [d, f]) == NormComps([], true, [d, f]);
    assert NormComps(Split(p), true, []) == [d, f];
    assert d[0] in d;
    assert p[..2] == "/" + [d[0]];
    assert LeadingSlashes(p) == 1;
    assert Slashes(1) == "/";
    assert JoinSlash([d, f]) == d + "/" + f by {
      assert [d, f][1..] == [f];
    }
    assert "/" + (d + "/" + f) == "/" + d + "/" + f;
  }

  /** A trailing "/" after a file: `normpath` drops it, the operating system does not get through. */
  lemma TrailingSlashAfterFile(fs: FileSystem, d: string, f: string)
    requires Plain(d) && Plain(f)
    requires "/" + d + "/" + f in fs && fs["/" + d + "/" + f].File?
    ensures NormPath("/" + d + "/" + f + "/") == "/" + d + "/" + f
    ensures !RawResolves(fs, "/" + d + "/" + f + "/")
  {
    NormTrailing(d, f);
    var p := "/" + d + "/" + f + "/";
    var key := "/" + d + "/" + f;
    SplitTrailing(d, f);
    assert JoinSlash([d, f]) == d + "/" + f by {
      assert [d, f][1..] == [f];
    }
    assert "/" + JoinSlash([d] + [f]) == key by {
      assert [d] + [f] == [d, f];
    }
    assert !IsDirectory(fs, key);
    assert !Walks(fs, [f, ""], [d]);
    assert !Walks(fs, [d, f, ""], []) by {
      assert [d, f, ""][1..] == [f, ""];
      assert [] + [d] == [d];
    }
    assert Split(p)[1..] == [d, f, ""];
  }

  /** `open(p).read(5000)`, or the marker the publisher stores when reading raises. */
  function ReadPreview(n: Node): (r: string)
    requires n.File?
    ensures |r| <= PreviewLimit
    ensures n.readable ==> |r| <= |n.text| && r == n.text[..|r|] && (|r| == PreviewLimit || r == n.text)
    ensures !n.readable ==> r == UnreadableMarker
  {
    if !n.readable then UnreadableMarker
    else if |n.text| <= PreviewLimit then n.text
    else n.text[..PreviewLimit]
  }
}
