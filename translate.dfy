/**
 * The two path translators of actions.py: a scratch path under /tmp/ to
 * an obfuscated destination in the save directory, and a public URL back
 * to the file in the save directory.
 */
module Translate {
  import opened Common
  import opened Paths
  import opened FileStore

  /**
   * The static settings: SAVE_FILE_DIR, URL_PREFIX, and the process's
   * working directory (which `abspath` consults for relative paths).
   */
  datatype Config = Config(saveFileDir: string, urlPrefix: string, cwd: string)

  /** The only scratch root the translator accepts. */
  const TmpRoot := "/tmp/"

  /** A working directory is always absolute. */
  predicate ValidConfig(cfg: Config)
  {
    StartsWith(cfg.cwd, "/")
  }

  datatype PathError = NotInTmp | SourceNotFound | PrefixMismatch | NotInSaveDir

  predicate IsHexDigit(c: char)
  {
    '0' <= c <= '9' || 'a' <= c <= 'f'
  }

  /** `uuid.uuid4().hex`: 32 lower-case hexadecimal digits. */
  predicate IsToken(t: string)
  {
    |t| == 32 && forall i :: 0 <= i < |t| ==> IsHexDigit(t[i])
  }

  /** The destination name: token, underscore, original base name. */
  function PublicName(token: string, srcFilename: string): string
  {
    token + "_" + srcFilename
  }

  /** The destination name splits back into the token, the underscore and the original base name. */
  lemma PublicNameParts(token: string, srcFilename: string)
    ensures var n := PublicName(token, srcFilename);
            && |n| == |token| + 1 + |srcFilename|
            && n[..|token|] == token && n[|token|] == '_' && n[|token| + 1..] == srcFilename
  {
  }

  lemma PublicNameHasNoSlash(token: string, base: string)
    requires IsToken(token) && '/' !in base
    ensures '/' !in PublicName(token, base)
  {
    var n := PublicName(token, base);
    forall i | 0 <= i < |n| ensures n[i] != '/' {
      if i < 32 {
        assert n[i] == token[i];
      } else if i > 32 {
        assert n[i] == base[i - 33];
      }
    }
  }

  /**
   * `_convert_tmp_to_save_path(src)` with the token `uuid4` would draw:
   * the normalised source must lie under /tmp/ and exist; the result is
   * the destination path in the save directory and its file name. The
   * filesystem is only read.
   */
  function ConvertTmpToSavePath(cfg: Config, fs: FileSystem, src: string, token: string): (r: Result<(string, string), PathError>)
    ensures r == Failure(NotInTmp) <==> !StartsWith(AbsPath(cfg.cwd, src), TmpRoot)
    ensures r == Failure(SourceNotFound) <==>
              StartsWith(AbsPath(cfg.cwd, src), TmpRoot) && !Exists(cfg.cwd, fs, AbsPath(cfg.cwd, src))
    ensures r.Success? ==>
              && Exists(cfg.cwd, fs, AbsPath(cfg.cwd, src))
              && r.value.1 == PublicName(token, Basename(AbsPath(cfg.cwd, src)))
              && r.value.0 == Join(cfg.saveFileDir, r.value.1)
    ensures r.Success? && IsToken(token) ==>
              && '/' !in r.value.1
              && StartsWith(r.value.0, cfg.saveFileDir)
              && Basename(r.value.0) == r.value.1
  {
    var srcFilepath := AbsPath(cfg.cwd, src);
    if !StartsWith(srcFilepath, TmpRoot) then Failure(NotInTmp)
    else if !Exists(cfg.cwd, fs, srcFilepath) then Failure(SourceNotFound)
    else
      var dstFilename := PublicName(token, Basename(srcFilepath));
      var dstFilepath := Join(cfg.saveFileDir, dstFilename);
      assert IsToken(token) ==> '/' !in dstFilename && Basename(dstFilepath) == dstFilename && StartsWith(dstFilepath, cfg.saveFileDir) by {
        if IsToken(token) {
          PublicNameHasNoSlash(token, Basename(srcFilepath));
          JoinBasename(cfg.saveFileDir, dstFilename);
        }
      }
      Success((dstFilepath, dstFilename))
  }

  /**
   * `_convert_public_to_save_path(url)`: the URL must carry URL_PREFIX, and
   * its base name joined to SAVE_FILE_DIR must exist as written (the joined
   * path is not normalised before `os.path.exists`); the result is exactly
   * that joined path. Its text starts with SAVE_FILE_DIR, which is not
   * containment: see `PublicDotDot` and `PublicTrailingSlash`.
   */
  function ConvertPublicToSavePath(cfg: Config, fs: FileSystem, publicUrl: string): (r: Result<string, PathError>)
    ensures r == Failure(PrefixMismatch) <==> !StartsWith(publicUrl, cfg.urlPrefix)
    ensures r == Failure(NotInSaveDir) <==>
              StartsWith(publicUrl, cfg.urlPrefix) && !ExistsAsWritten(cfg.cwd, fs, Join(cfg.saveFileDir, Basename(publicUrl)))
    ensures r.Success? ==>
              && r.value == Join(cfg.saveFileDir, Basename(publicUrl))
              && ExistsAsWritten(cfg.cwd, fs, r.value)
              && StartsWith(r.value, cfg.saveFileDir)
              && Basename(r.value) == Basename(publicUrl)
  {
    if !StartsWith(publicUrl, cfg.urlPrefix) then Failure(PrefixMismatch)
    else
      var filename := Basename(publicUrl);
      var filePath := Join(cfg.saveFileDir, filename);
      if !ExistsAsWritten(cfg.cwd, fs, filePath) then Failure(NotInSaveDir)
      else
        JoinBasename(cfg.saveFileDir, filename);
        Success(filePath)
  }

  lemma PublicFound(cfg: Config, fs: FileSystem, u: string, name: string)
    requires StartsWith(u, cfg.urlPrefix) && Basename(u) == name
    requires ExistsAsWritten(cfg.cwd, fs, Join(cfg.saveFileDir, name))
    ensures ConvertPublicToSavePath(cfg, fs, u) == Success(Join(cfg.saveFileDir, name))
  {
  }

  lemma PublicMissing(cfg: Config, fs: FileSystem, u: string, name: string)
    requires StartsWith(u, cfg.urlPrefix) && Basename(u) == name
    requires !ExistsAsWritten(cfg.cwd, fs, Join(cfg.saveFileDir, name))
    ensures ConvertPublicToSavePath(cfg, fs, u) == Failure(NotInSaveDir)
  {
  }

  /** The base name of `URL_PREFIX/..`. */
  lemma DotDotBasename(prefix: string)
    ensures StartsWith(prefix + "/..", prefix) && Basename(prefix + "/..") == ".."
  {
    var u := prefix + "/..";
    var x := prefix + "/";
    assert u == x + ".." && u[..|prefix|] == prefix;
    assert EndsWith(x, "/") by { assert x[|x| - 1..] == "/"; }
    BasenameAfterSlash(x, "..");
  }

  /** A URL ending in `/..` translates to SAVE_FILE_DIR's parent directory, spelled `SAVE_FILE_DIR/..`. */
  lemma PublicDotDot(cfg: Config, fs: FileSystem)
    requires ExistsAsWritten(cfg.cwd, fs, Join(cfg.saveFileDir, ".."))
    ensures ConvertPublicToSavePath(cfg, fs, cfg.urlPrefix + "/..") == Success(Join(cfg.saveFileDir, ".."))
  {
    DotDotBasename(cfg.urlPrefix);
    PublicFound(cfg, fs, cfg.urlPrefix + "/..", "..");
  }

  /** A URL ending in `/` has an empty base name and translates to SAVE_FILE_DIR itself. */
  lemma PublicTrailingSlash(cfg: Config, fs: FileSystem, u: string)
    requires StartsWith(u, cfg.urlPrefix) && EndsWith(u, "/")
    requires ExistsAsWritten(cfg.cwd, fs, Join(cfg.saveFileDir, ""))
    ensures ConvertPublicToSavePath(cfg, fs, u) == Success(Join(cfg.saveFileDir, ""))
    ensures Join(cfg.saveFileDir, "") == cfg.saveFileDir || Join(cfg.saveFileDir, "") == cfg.saveFileDir + "/"
  {
    assert Basename(u) == "";
    PublicFound(cfg, fs, u, "");
  }

  /** A rooted plain name followed by `/` and a last component `c` splits into its three pieces. */
  lemma SplitUnder(d: string, c: string)
    requires Plain(d) && '/' !in c
    ensures Split("/" + d + "/" + c) == ["", d, c]
  {
    assert "/" + d + "/" + c == "/" + (d + "/" + c);
    SplitAfterSlash(d + "/" + c);
    SplitConcat(d, c);
    SplitNoSlash(d);
    SplitNoSlash(c);
  }

  /** With the regular file `/d` in place of `d` as a directory, neither `/d/` nor `/d/..` walks. */
  lemma UnderFileDoesNotWalk(fs: FileSystem, d: string, c: string)
    requires Plain(d) && '/' !in c
    requires "/" + d in fs && fs["/" + d].File?
    ensures !RawResolves(fs, "/" + d + "/" + c)
  {
    SplitUnder(d, c);
    var none: seq<string> := [];
    assert none + [d] == [d] && JoinSlash([d]) == d;
    assert !IsDirectory(fs, "/" + JoinSlash(none + [d]));
    assert !Walks(fs, [d, c], none);
    assert ["", d, c][1..] == [d, c];
    assert !Walks(fs, ["", d, c], none);
  }

  /**
   * When SAVE_FILE_DIR is a regular file, `SAVE_FILE_DIR/` normalises to
   * that file but does not exist as written, so a URL ending in `/` is
   * refused.
   */
  lemma PublicTrailingSlashOverFile(cfg: Config, fs: FileSystem, u: string, d: string)
    requires Plain(d) && cfg.saveFileDir == "/" + d
    requires "/" + d in fs && fs["/" + d].File?
    requires StartsWith(u, cfg.urlPrefix) && EndsWith(u, "/")
    ensures Exists(cfg.cwd, fs, Join(cfg.saveFileDir, Basename(u)))
    ensures ConvertPublicToSavePath(cfg, fs, u) == Failure(NotInSaveDir)
  {
    assert Basename(u) == "";
    var p := "/" + d + "/";
    JoinedTrailing(d);
    FoundTrailing(cfg.cwd, fs, d);
    UnderFileDoesNotWalk(fs, d, "");
    assert p + "" == p;
    assert !RawResolves(fs, Join(cfg.cwd, p));
    PublicMissing(cfg, fs, u, "");
  }

  lemma JoinedTrailing(d: string)
    requires Plain(d)
    ensures Join("/" + d, "") == "/" + d + "/"
  {
    var a := "/" + d;
    assert d[|d| - 1] in d;
    assert a[|a| - 1..] == [d[|d| - 1]];
    assert !EndsWith(a, "/");
  }

  /** `/d/` resolves to the key `/d`. */
  lemma FoundTrailing(cwd: string, fs: FileSystem, d: string)
    requires Plain(d) && "/" + d in fs
    ensures Exists(cwd, fs, "/" + d + "/")
  {
    NormTrailingSlash(d);
    AbsPathOfRooted(cwd, "/" + d + "/");
  }

  /**
   * When SAVE_FILE_DIR is a regular file, `SAVE_FILE_DIR/..` does not exist
   * as written, whatever its parent is.
   */
  lemma PublicDotDotOverFile(cfg: Config, fs: FileSystem, d: string)
    requires Plain(d) && cfg.saveFileDir == "/" + d
    requires "/" + d in fs && fs["/" + d].File?
    ensures ConvertPublicToSavePath(cfg, fs, cfg.urlPrefix + "/..") == Failure(NotInSaveDir)
  {
    DotDotBasename(cfg.urlPrefix);
    assert d[|d| - 1] in d;
    var p := "/" + d + "/" + "..";
    assert Join(cfg.saveFileDir, "..") == p;
    UnderFileDoesNotWalk(fs, d, "..");
    assert !RawResolves(fs, Join(cfg.cwd, p));
    PublicMissing(cfg, fs, cfg.urlPrefix + "/..", "..");
  }


  /** The public URL under which a destination name is published. */
  function PublicUrl(cfg: Config, dstFilename: string): string
  {
    Join(cfg.urlPrefix, dstFilename)
  }

  /** A slash-free destination name is published under URL_PREFIX, as the URL's base name. */
  lemma PublicUrlParts(cfg: Config, dstFilename: string)
    requires '/' !in dstFilename
    ensures StartsWith(PublicUrl(cfg, dstFilename), cfg.urlPrefix) && Basename(PublicUrl(cfg, dstFilename)) == dstFilename
  {
    JoinBasename(cfg.urlPrefix, dstFilename);
  }

  /**
   * Round trip: once the destination exists, the URL published for it
   * translates back to exactly the destination path the scratch translator
   * produced.
   */
  lemma PublicUrlRoundTrip(cfg: Config, fs: FileSystem, src: string, token: string, fs': FileSystem)
    requires IsToken(token)
    requires ConvertTmpToSavePath(cfg, fs, src, token).Success?
    requires ExistsAsWritten(cfg.cwd, fs', ConvertTmpToSavePath(cfg, fs, src, token).value.0)
    ensures var (dstFilepath, dstFilename) := ConvertTmpToSavePath(cfg, fs, src, token).value;
            ConvertPublicToSavePath(cfg, fs', PublicUrl(cfg, dstFilename)) == Success(dstFilepath)
  {
    var (dstFilepath, dstFilename) := ConvertTmpToSavePath(cfg, fs, src, token).value;
    JoinBasename(cfg.urlPrefix, dstFilename);
  }

  /**
   * The destination never resolves to the source: its base name is the
   * source's base name with 33 characters (the token and '_') in front.
   */
  lemma DestinationDiffers(cfg: Config, fs: FileSystem, src: string, token: string)
    requires IsToken(token)
    requires ConvertTmpToSavePath(cfg, fs, src, token).Success?
    ensures AbsPath(cfg.cwd, ConvertTmpToSavePath(cfg, fs, src, token).value.0) != AbsPath(cfg.cwd, src)
  {
    var (dstFilepath, dstFilename) := ConvertTmpToSavePath(cfg, fs, src, token).value;
    var base := Basename(AbsPath(cfg.cwd, src));
    assert |dstFilename| == |base| + 33;
    assert dstFilename[0] == token[0] && IsHexDigit(token[0]);
    assert Plain(dstFilename);
    AbsPathJoinBasename(cfg.cwd, cfg.saveFileDir, dstFilename);
  }

  /** Without a copy at the destination the URL does not translate back. */
  lemma PublicUrlNeedsCopy(cfg: Config, fs: FileSystem, src: string, token: string, fs': FileSystem)
    requires IsToken(token)
    requires ConvertTmpToSavePath(cfg, fs, src, token).Success?
    requires !ExistsAsWritten(cfg.cwd, fs', ConvertTmpToSavePath(cfg, fs, src, token).value.0)
    ensures var dstFilename := ConvertTmpToSavePath(cfg, fs, src, token).value.1;
            ConvertPublicToSavePath(cfg, fs', PublicUrl(cfg, dstFilename)) == Failure(NotInSaveDir)
  {
    var (dstFilepath, dstFilename) := ConvertTmpToSavePath(cfg, fs, src, token).value;
    JoinBasename(cfg.urlPrefix, dstFilename);
  }

  /** A single plain component with a trailing slash normalises to the component alone. */
  lemma NormTrailingSlash(d: string)
    requires Plain(d)
    ensures NormPath("/" + d + "/") == "/" + d
  {
    var p := "/" + d + "/";
    assert p == "/" + (d + "/" + "");
    SplitAfterSlash(d + "/" + "");
    SplitConcat(d, "");
    SplitNoSlash(d);
    assert Split("") == [""];
    assert Split(p) == [""] + [d, ""];
    NormSkipsEmpty([""], [d, ""]);
    assert [d, ""] == [d] + [""];
    NormCompsAppend([d], [""], true, []);
    NormCompsOfPlain([d], []);
    assert NormComps([""], true, [d]) == NormComps([], true, [d]);
    assert d[0] in d;
    assert p[..2] == "/" + [d[0]];
    assert LeadingSlashes(p) == 1;
    assert Slashes(1) == "/";
  }

  /** "/tmp/" passes the raw prefix test but normalises to "/tmp", outside the root. */
  lemma RejectsBareTmp(cfg: Config, fs: FileSystem, token: string)
    ensures ConvertTmpToSavePath(cfg, fs, "/tmp/", token) == Failure(NotInTmp)
  {
    NormTrailingSlash("tmp");
    assert "/tmp/" == "/" + "tmp" + "/";
    assert |"/" + "tmp"| < |TmpRoot|;
  }

  /** A rooted path whose first component is not "tmp" lies outside the scratch root. */
  lemma OutsideTmp(dir: string, rest: string)
    requires Plain(dir) && dir != "tmp"
    ensures !StartsWith("/" + (dir + "/" + rest), TmpRoot)
  {
    var q := "/" + (dir + "/" + rest);
    assert q[1..|dir| + 1] == dir;
    assert q[|dir| + 1] == '/';
    if |dir| >= 4 {
      assert dir[3] in dir;
      assert q[4] != TmpRoot[4];
    } else if |dir| == 3 {
      assert q[1..4] != TmpRoot[1..4];
    } else {
      assert q[|dir| + 1] != TmpRoot[|dir| + 1];
    }
  }

  lemma Assoc(a: string, b: string, c: string)
    ensures (a + b) + c == a + (b + c)
  {
  }

  /** Regrouping of a rooted four-component path. */
  lemma NestFour(x: string, y: string, dir: string, name: string)
    ensures "/" + x + "/" + y + "/" + dir + "/" + name == "/" + (x + "/" + (y + "/" + (dir + "/" + name)))
  {
    var t3 := dir + "/" + name;
    Assoc(dir, "/", name);
    var l := "/" + x + "/" + y + "/";
    Assoc(l, dir + "/", name);
    Assoc(l, dir, "/");
    Assoc(l, dir, "/" + name);
    assert "/" + x + "/" + y + "/" + dir + "/" + name == l + t3;
    Assoc("/" + x + "/" + y, "/", t3);
    Assoc("/" + x + "/", y, "/" + t3);
    var t2 := y + "/" + t3;
    Assoc(y, "/", t3);
    assert l + t3 == "/" + x + "/" + t2;
    Assoc("/" + x, "/", t2);
    Assoc("/", x, "/" + t2);
    Assoc(x, "/", t2);
  }

  /** The pieces of a rooted four-component path. */
  lemma SplitFour(x: string, y: string, dir: string, name: string)
    requires '/' !in x && '/' !in y && '/' !in dir && '/' !in name
    ensures Split("/" + (x + "/" + (y + "/" + (dir + "/" + name)))) == ["", x, y, dir, name]
  {
    var t3 := dir + "/" + name;
    var t2 := y + "/" + t3;
    var t1 := x + "/" + t2;
    SplitNoSlash(x);
    SplitNoSlash(y);
    SplitNoSlash(dir);
    SplitNoSlash(name);
    SplitConcat(dir, name);
    SplitConcat(y, t3);
    SplitConcat(x, t2);
    SplitAfterSlash(t1);
  }

  /** A ".." right after the first component cancels it. */
  lemma {:induction false} NormParentEscape(x: string, dir: string, name: string)
    requires Plain(x) && Plain(dir) && Plain(name)
    ensures NormPath("/" + x + "/" + ".." + "/" + dir + "/" + name) == "/" + (dir + "/" + name)
  {
    var p := "/" + x + "/" + ".." + "/" + dir + "/" + name;
    NestFour(x, "..", dir, name);
    SplitFour(x, "..", dir, name);
    var rest := [x, "..", dir, name];
    assert ["", x, "..", dir, name] == [""] + rest;
    NormSkipsEmpty([""], rest);
    assert NormComps(rest, true, []) == [dir, name] by {
      assert rest[1..] == ["..", dir, name];
      var empty: seq<string> := [];
      assert NormComps(rest, true, []) == NormComps(rest[1..], true, empty + [x]);
      assert (empty + [x])[..0] == [];
      assert NormComps(rest[1..], true, [x]) == NormComps([dir, name], true, []);
      NormCompsOfPlain([dir, name], []);
    }
    assert x[0] in x;
    assert p[..2] == "/" + [x[0]];
    assert LeadingSlashes(p) == 1;
    assert JoinSlash([dir, name]) == dir + "/" + name by {
      assert [dir, name][1..] == [name];
    }
    assert Slashes(1) == "/";
  }

  /** ".." directly under /tmp/ climbs out of the scratch root. */
  lemma RejectsParentEscape(cfg: Config, fs: FileSystem, token: string, dir: string, name: string)
    requires Plain(dir) && Plain(name) && dir != "tmp"
    ensures ConvertTmpToSavePath(cfg, fs, "/tmp/../" + dir + "/" + name, token) == Failure(NotInTmp)
  {
    NormParentEscape("tmp", dir, name);
    assert "/tmp/../" + dir + "/" + name == "/" + "tmp" + "/" + ".." + "/" + dir + "/" + name;
    OutsideTmp(dir, name);
  }

  /** "/tmp/../etc/x" passes the raw prefix test but normalises to "/etc/x", outside the scratch root. */
  lemma RejectsEtcExample(cfg: Config, fs: FileSystem, token: string)
    ensures ConvertTmpToSavePath(cfg, fs, "/tmp/../etc/x", token) == Failure(NotInTmp)
  {
    RejectsParentEscape(cfg, fs, token, "etc", "x");
    assert "/tmp/../etc/x" == "/tmp/../" + "etc" + "/" + "x";
  }
}
