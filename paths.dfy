/**
 * POSIX path helpers as Python's `posixpath` defines them: `startswith`,
 * `endswith`, `basename`, two-argument `join`, `str.split('/')`,
 * `'/'.join(...)`, `normpath` and `abspath` (with the working directory as
 * a parameter). The publishing pipeline relies on their exact behaviour.
 */
module Paths {

  predicate StartsWith(s: string, prefix: string)
  {
    |prefix| <= |s| && s[..|prefix|] == prefix
  }

  predicate EndsWith(s: string, suffix: string)
  {
    |suffix| <= |s| && s[|s| - |suffix|..] == suffix
  }

  /** `os.path.basename`: everything after the last '/'. */
  function Basename(p: string): (r: string)
    ensures '/' !in r
    ensures EndsWith(p, r)
    ensures r == p || p[|p| - |r| - 1] == '/'
  {
    if p == [] then []
    else if p[|p| - 1] == '/' then []
    else Basename(p[..|p| - 1]) + [p[|p| - 1]]
  }

  /** `os.path.join(a, b)`: an absolute `b` wins, otherwise exactly one '/' between. */
  function Join(a: string, b: string): (r: string)
    ensures StartsWith(b, "/") ==> r == b
    ensures !StartsWith(b, "/") ==> StartsWith(r, a) && EndsWith(r, b)
  {
    if StartsWith(b, "/") then b
    else if a == "" || EndsWith(a, "/") then a + b
    else a + "/" + b
  }

  lemma {:induction false} BasenameAfterSlash(x: string, b: string)
    requires '/' !in b
    requires x == "" || EndsWith(x, "/")
    ensures Basename(x + b) == b
    decreases |b|
  {
    var y := x + b;
    if b == [] {
      assert y == x;
    } else {
      var last := b[|b| - 1];
      var init := b[..|b| - 1];
      assert last in b;
      assert y[|y| - 1] == last;
      assert y[..|y| - 1] == x + init;
      assert Basename(y) == Basename(x + init) + [last];
      BasenameAfterSlash(x, init);
      assert init + [last] == b;
    }
  }

  /** Joining a name without '/' onto any directory gives back that name as basename. */
  lemma JoinBasename(a: string, b: string)
    requires '/' !in b
    ensures Basename(Join(a, b)) == b
    ensures StartsWith(Join(a, b), a)
  {
    if b != [] {
      assert b[0] in b;
    }
    assert !StartsWith(b, "/");
    if a == "" || EndsWith(a, "/") {
      assert Join(a, b) == a + b;
      BasenameAfterSlash(a, b);
    } else {
      var a' := a + "/";
      assert Join(a, b) == a' + b;
      assert a'[|a'| - 1..] == "/";
      BasenameAfterSlash(a', b);
      assert a'[..|a|] == a;
    }
  }

  /** Python's `s.split('/')`: always at least one piece, none containing '/'. */
  function Split(s: string): (r: seq<string>)
    ensures |r| >= 1
    ensures forall i :: 0 <= i < |r| ==> '/' !in r[i]
  {
    if s == [] then [""]
    else if s[0] == '/' then [""] + Split(s[1..])
    else var t := Split(s[1..]); [[s[0]] + t[0]] + t[1..]
  }

  /** Python's `'/'.join(cs)`. */
  function JoinSlash(cs: seq<string>): string
  {
    if |cs| == 0 then ""
    else if |cs| == 1 then cs[0]
    else cs[0] + "/" + JoinSlash(cs[1..])
  }

  predicate NoSlash(cs: seq<string>)
  {
    forall i :: 0 <= i < |cs| ==> '/' !in cs[i]
  }

  lemma {:induction false} SplitNoSlash(s: string)
    requires '/' !in s
    ensures Split(s) == [s]
  {
    if s != [] {
      SplitNoSlash(s[1..]);
      assert [s[0]] + s[1..] == s;
    }
  }

  /** Splitting distributes over a '/' separator. */
  lemma {:induction false} SplitConcat(a: string, b: string)
    ensures Split(a + "/" + b) == Split(a) + Split(b)
    decreases |a|
  {
    if a == [] {
      assert a + "/" + b == ['/'] + b;
    } else {
      SplitConcat(a[1..], b);
      SplitConcatStep(a, b);
    }
  }

  /** One step of `SplitConcat`: the first character of `a` is split off alike on both sides. */
  lemma SplitConcatStep(a: string, b: string)
    requires a != []
    requires Split(a[1..] + "/" + b) == Split(a[1..]) + Split(b)
    ensures Split(a + "/" + b) == Split(a) + Split(b)
  {
    var s := a + "/" + b;
    assert s[0] == a[0] && s[1..] == a[1..] + "/" + b;
    SplitFirst(s, Split(b));
    SplitFirst(a, Split(b));
  }

  /** Splitting off the first character commutes with appending pieces `u`. */
  lemma SplitFirst(s: string, u: seq<string>)
    requires s != []
    ensures Split(s) + u == if s[0] == '/' then [""] + (Split(s[1..]) + u)
                            else [[s[0]] + (Split(s[1..]) + u)[0]] + (Split(s[1..]) + u)[1..]
  {
    if s[0] == '/' {
      SplitFirstSlash(s, u);
    } else {
      SplitFirstChar(s, u);
    }
  }

  lemma SplitFirstSlash(s: string, u: seq<string>)
    requires s != [] && s[0] == '/'
    ensures Split(s) + u == [""] + (Split(s[1..]) + u)
  {
    assert Split(s) == [""] + Split(s[1..]);
  }

  lemma SplitFirstChar(s: string, u: seq<string>)
    requires s != [] && s[0] != '/'
    ensures Split(s) + u == [[s[0]] + (Split(s[1..]) + u)[0]] + (Split(s[1..]) + u)[1..]
  {
    var t := Split(s[1..]);
    assert Split(s) == [[s[0]] + t[0]] + t[1..];
    ExtendFirstAppend(s[0], t, u);
  }

  /** Extending the first piece by `c` commutes with appending pieces `u`. */
  lemma ExtendFirstAppend(c: char, t: seq<string>, u: seq<string>)
    requires |t| >= 1
    ensures ([[c] + t[0]] + t[1..]) + u == [[c] + (t + u)[0]] + (t + u)[1..]
  {
    assert (t + u)[0] == t[0] && (t + u)[1..] == t[1..] + u;
  }

  lemma {:induction false} JoinSplit(s: string)
    ensures JoinSlash(Split(s)) == s
  {
    if s != [] {
      JoinSplit(s[1..]);
      var t := Split(s[1..]);
      if s[0] == '/' {
        assert JoinSlash([""] + t) == "" + "/" + JoinSlash(t);
      } else {
        var u := [[s[0]] + t[0]] + t[1..];
        if |t| == 1 {
          assert JoinSlash(u) == [s[0]] + t[0];
        } else {
          assert u[1..] == t[1..];
          assert JoinSlash(t) == t[0] + "/" + JoinSlash(t[1..]);
        }
        assert JoinSlash(u) == [s[0]] + JoinSlash(t);
      }
      assert [s[0]] + s[1..] == s;
    }
  }

  lemma {:induction false} SplitJoin(cs: seq<string>)
    requires |cs| >= 1 && NoSlash(cs)
    ensures Split(JoinSlash(cs)) == cs
  {
    if |cs| == 1 {
      SplitNoSlash(cs[0]);
    } else {
      SplitJoin(cs[1..]);
      SplitConcat(cs[0], JoinSlash(cs[1..]));
      SplitNoSlash(cs[0]);
      assert cs == [cs[0]] + cs[1..];
    }
  }

  lemma {:induction false} JoinSlashConcat(xs: seq<string>, ys: seq<string>)
    requires xs != [] && ys != []
    ensures JoinSlash(xs + ys) == JoinSlash(xs) + "/" + JoinSlash(ys)
    decreases |xs|
  {
    if |xs| == 1 {
      assert (xs + ys)[1..] == ys;
    } else {
      assert (xs + ys)[1..] == xs[1..] + ys;
      JoinSlashConcat(xs[1..], ys);
    }
  }

  /** The component loop of `posixpath.normpath`, folded left over `comps`. */
  function NormComps(comps: seq<string>, rooted: bool, acc: seq<string>): seq<string>
    decreases |comps|
  {
    if comps == [] then acc
    else
      var c := comps[0];
      var next :=
        if c == "" || c == "." then acc
        else if c != ".." || (!rooted && acc == []) || (acc != [] && acc[|acc| - 1] == "..") then acc + [c]
        else if acc != [] then acc[..|acc| - 1]
        else acc;
      NormComps(comps[1..], rooted, next)
  }

  /** A component that survives normalisation of a rooted path unchanged. */
  predicate Plain(c: string)
  {
    c != "" && c != "." && c != ".." && '/' !in c
  }

  predicate AllPlain(cs: seq<string>)
  {
    forall i :: 0 <= i < |cs| ==> Plain(cs[i])
  }

  lemma {:induction false} NormCompsAppend(xs: seq<string>, ys: seq<string>, rooted: bool, acc: seq<string>)
    ensures NormComps(xs + ys, rooted, acc) == NormComps(ys, rooted, NormComps(xs, rooted, acc))
    decreases |xs|
  {
    if xs == [] {
      assert xs + ys == ys;
    } else {
      assert (xs + ys)[0] == xs[0];
      assert (xs + ys)[1..] == xs[1..] + ys;
      var c := xs[0];
      var next :=
        if c == "" || c == "." then acc
        else if c != ".." || (!rooted && acc == []) || (acc != [] && acc[|acc| - 1] == "..") then acc + [c]
        else if acc != [] then acc[..|acc| - 1]
        else acc;
      NormCompsAppend(xs[1..], ys, rooted, next);
    }
  }

  /** For a rooted path, normalisation leaves only plain components. */
  lemma {:induction false} NormCompsRootedPlain(comps: seq<string>, acc: seq<string>)
    requires NoSlash(comps) && AllPlain(acc)
    ensures AllPlain(NormComps(comps, true, acc))
    decreases |comps|
  {
    if comps != [] {
      var c := comps[0];
      var next :=
        if c == "" || c == "." then acc
        else if c != ".." || (acc != [] && acc[|acc| - 1] == "..") then acc + [c]
        else if acc != [] then acc[..|acc| - 1]
        else acc;
      assert AllPlain(next);
      NormCompsRootedPlain(comps[1..], next);
    }
  }

  /** Plain components pass through the loop untouched. */
  lemma {:induction false} NormCompsOfPlain(cs: seq<string>, acc: seq<string>)
    requires AllPlain(cs)
    ensures NormComps(cs, true, acc) == acc + cs
    decreases |cs|
  {
    if cs != [] {
      NormCompsOfPlain(cs[1..], acc + [cs[0]]);
      assert acc + [cs[0]] + cs[1..] == acc + cs;
    }
  }

  /** How many leading slashes `normpath` keeps: POSIX gives "//" a special meaning. */
  function LeadingSlashes(p: string): nat
  {
    if !StartsWith(p, "/") then 0
    else if StartsWith(p, "//") && !StartsWith(p, "///") then 2
    else 1
  }

  function Slashes(n: nat): string
  {
    if n == 0 then "" else Slashes(n - 1) + "/"
  }

  /** `posixpath.normpath`. */
  function NormPath(p: string): string
  {
    if p == "" then "."
    else
      var k := LeadingSlashes(p);
      var r := Slashes(k) + JoinSlash(NormComps(Split(p), k > 0, []));
      if r == "" then "." else r
  }

  /** `os.path.abspath`, with the process's working directory as `cwd`. */
  function AbsPath(cwd: string, p: string): string
  {
    NormPath(if StartsWith(p, "/") then p else Join(cwd, p))
  }

  /** A rooted path normalises to its leading slashes followed by plain components. */
  lemma NormPathRooted(p: string)
    requires StartsWith(p, "/")
    ensures var k := LeadingSlashes(p);
            var cs := NormComps(Split(p), true, []);
            && (k == 1 || k == 2)
            && AllPlain(cs)
            && NormPath(p) == Slashes(k) + JoinSlash(cs)
  {
    NormCompsRootedPlain(Split(p), []);
  }

  lemma {:induction false} JoinSlashPlainHead(cs: seq<string>)
    requires AllPlain(cs) && cs != []
    ensures JoinSlash(cs) != "" && JoinSlash(cs)[0] == cs[0][0]
  {
    if |cs| > 1 {
      assert JoinSlash(cs) == cs[0] + "/" + JoinSlash(cs[1..]);
    }
  }

  lemma SplitAfterSlash(j: string)
    ensures Split("/" + j) == [""] + Split(j)
  {
    assert "/" + j == "" + "/" + j;
    SplitConcat("", j);
  }

  lemma PlainTail(cs: seq<string>)
    requires AllPlain(cs)
    ensures Split(JoinSlash(cs)) == if cs == [] then [""] else cs
  {
    if cs != [] { SplitJoin(cs); }
  }

  lemma SplitLead(k: nat, j: string)
    requires k == 1 || k == 2
    ensures Split(Slashes(k) + j) == (if k == 1 then [""] else ["", ""]) + Split(j)
  {
    SplitAfterSlash(j);
    if k == 2 {
      assert Slashes(k) == "/" + "/";
      assert Slashes(k) + j == "/" + ("/" + j);
      SplitAfterSlash("/" + j);
    } else {
      assert Slashes(k) == "/";
    }
  }

  lemma NormSkipsEmpty(xs: seq<string>, ys: seq<string>)
    requires forall i :: 0 <= i < |xs| ==> xs[i] == ""
    ensures NormComps(xs + ys, true, []) == NormComps(ys, true, [])
    decreases |xs|
  {
    if xs != [] {
      assert (xs + ys)[1..] == xs[1..] + ys;
      NormSkipsEmpty(xs[1..], ys);
    } else {
      assert xs + ys == ys;
    }
  }

  lemma SplitSlashesJoin(k: nat, cs: seq<string>)
    requires k == 1 || k == 2
    requires AllPlain(cs)
    ensures NormComps(Split(Slashes(k) + JoinSlash(cs)), true, []) == cs
  {
    var j := JoinSlash(cs);
    var lead: seq<string> := if k == 1 then [""] else ["", ""];
    SplitLead(k, j);
    NormSkipsEmpty(lead, Split(j));
    PlainTail(cs);
    if cs == [] {
      assert NormComps([""], true, []) == NormComps([], true, []);
    } else {
      NormCompsOfPlain(cs, []);
      assert [] + cs == cs;
    }
  }

  /** Normalising an already-normalised rooted path changes nothing. */
  lemma NormPathIdempotent(p: string)
    requires StartsWith(p, "/")
    ensures StartsWith(NormPath(p), "/")
    ensures NormPath(NormPath(p)) == NormPath(p)
  {
    NormPathRooted(p);
    var k := LeadingSlashes(p);
    var cs := NormComps(Split(p), true, []);
    var j := JoinSlash(cs);
    var q := Slashes(k) + j;
    assert q == NormPath(p);
    assert cs != [] ==> j != "" && j[0] != '/' by {
      if cs != [] { JoinSlashPlainHead(cs); assert cs[0][0] in cs[0]; }
    }
    if k == 1 {
      assert q == "/" + j;
    } else {
      assert q == "//" + j;
    }
    assert LeadingSlashes(q) == k;
    SplitSlashesJoin(k, cs);
  }

  /** With an absolute working directory, `abspath` is rooted and idempotent. */
  lemma AbsPathIdempotent(cwd: string, p: string)
    requires StartsWith(cwd, "/")
    ensures StartsWith(AbsPath(cwd, p), "/")
    ensures AbsPath(cwd, AbsPath(cwd, p)) == AbsPath(cwd, p)
  {
    var q := if StartsWith(p, "/") then p else Join(cwd, p);
    assert StartsWith(q, "/");
    NormPathIdempotent(q);
  }

  /** Normalising keeps a plain last component, after a '/' or on its own, as the base name. */
  lemma NormPathPlainEnd(z: string, name: string)
    requires Plain(name)
    requires z == "" || EndsWith(z, "/")
    ensures Basename(NormPath(z + name)) == name
  {
    if z == "" {
      assert z + name == name;
      NormPathLone(name);
    } else {
      var y := z[..|z| - 1];
      assert z == y + "/";
      assert z + name == y + "/" + name;
      NormPathAfterSlash(y, name);
    }
  }

  lemma NormPathLone(name: string)
    requires Plain(name)
    ensures Basename(NormPath(name)) == name
  {
    assert name[0] in name;
    SplitNoSlash(name);
    assert LeadingSlashes(name) == 0 && Slashes(0) == "";
    assert NormComps([name], false, []) == NormComps([], false, [] + [name]);
    assert NormPath(name) == "" + name;
    BasenameAfterSlash("", name);
  }

  lemma NormPathAfterSlash(y: string, name: string)
    requires Plain(name)
    ensures Basename(NormPath(y + "/" + name)) == name
  {
    var p := y + "/" + name;
    var k := LeadingSlashes(p);
    var a := NormComps(Split(y), k > 0, []);
    NormCompsSnocPlain(y, name, k > 0);
    BasenameSlashesJoin(k, a, name);
    assert NormPath(p) == Slashes(k) + JoinSlash(a + [name]);
  }

  lemma NormCompsSnocPlain(y: string, name: string, rooted: bool)
    requires Plain(name)
    ensures NormComps(Split(y + "/" + name), rooted, []) == NormComps(Split(y), rooted, []) + [name]
  {
    SplitConcat(y, name);
    SplitNoSlash(name);
    NormCompsAppend(Split(y), [name], rooted, []);
    NormCompsPushPlain(name, rooted, NormComps(Split(y), rooted, []));
  }

  lemma BasenameSlashesJoin(k: nat, a: seq<string>, name: string)
    requires Plain(name)
    ensures Slashes(k) + JoinSlash(a + [name]) != ""
    ensures Basename(Slashes(k) + JoinSlash(a + [name])) == name
  {
    var pre := if a == [] then Slashes(k) else Slashes(k) + JoinSlash(a) + "/";
    if a == [] {
      assert a + [name] == [name];
    } else {
      JoinSlashConcat(a, [name]);
    }
    assert Slashes(k) + JoinSlash(a + [name]) == pre + name;
    SlashesEnd(k);
    BasenameAfterSlash(pre, name);
    assert name[0] in name;
  }

  lemma NormCompsPushPlain(name: string, rooted: bool, a: seq<string>)
    requires Plain(name)
    ensures NormComps([name], rooted, a) == a + [name]
  {
    assert [name][1..] == [];
  }

  lemma SlashesEnd(k: nat)
    ensures Slashes(k) == "" || EndsWith(Slashes(k), "/")
  {
  }

  lemma EndsWithSlashConcat(w: string, z: string)
    requires w == "" || EndsWith(w, "/")
    requires z == "" || EndsWith(z, "/")
    ensures w + z == "" || EndsWith(w + z, "/")
  {
    if z == "" {
      assert w + z == w;
    } else {
      assert (w + z)[|w + z| - 1..] == z[|z| - 1..];
    }
  }

  /** `join(a, b)` for a relative `b` is `b` after a prefix that is empty or ends in '/'. */
  lemma JoinEnds(a: string, b: string) returns (w: string)
    requires !StartsWith(b, "/")
    ensures Join(a, b) == w + b
    ensures w == "" || EndsWith(w, "/")
  {
    w := if a == "" || EndsWith(a, "/") then a else a + "/";
  }

  /** `basename(abspath(join(d, name)))` is `name` for a plain name. */
  lemma AbsPathJoinBasename(cwd: string, d: string, name: string)
    requires Plain(name)
    ensures Basename(AbsPath(cwd, Join(d, name))) == name
  {
    assert name[0] in name;
    var z := JoinEnds(d, name);
    AbsPathPlainEnd(cwd, z, name);
  }

  lemma AbsPathPlainEnd(cwd: string, z: string, name: string)
    requires Plain(name)
    requires z == "" || EndsWith(z, "/")
    ensures Basename(AbsPath(cwd, z + name)) == name
  {
    var q := z + name;
    if StartsWith(q, "/") {
      NormPathPlainEnd(z, name);
    } else {
      var w := JoinEnds(cwd, q);
      assert w + q == (w + z) + name;
      EndsWithSlashConcat(w, z);
      NormPathPlainEnd(w + z, name);
    }
  }

  /** A rooted `abspath` does not depend on the working directory. */
  lemma AbsPathOfRooted(cwd: string, p: string)
    requires StartsWith(p, "/")
    ensures AbsPath(cwd, p) == NormPath(p)
  {
  }
}
