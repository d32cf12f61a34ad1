/** The two string helpers of `src/utils.rs` that the generators use:
    `add_padding` (debug indentation) and `create_output_path` (the name of
    the `.asm` file written for a `.vm` file or a directory). Paths are
    modelled by their string form with `/` as the separator. */
module Utils {
  import opened Wrappers
  import opened Strings

  /** `add_padding(s, n)`: `n` spaces followed by `s`. */
  function AddPadding(s: string, n: nat): (r: string)
    ensures |r| == |s| + n
    ensures r[n..] == s
    ensures forall i :: 0 <= i < n ==> r[i] == ' '
  {
    if n == 0 then s else [' '] + AddPadding(s, n - 1)
  }

  /** The example in the documentation comment of `add_padding`. */
  lemma AddPaddingExample()
    ensures AddPadding("hello", 2) == "  hello"
  {
    var r := AddPadding("hello", 2);
    assert r[..2] == "  ";
    assert r == r[..2] + r[2..];
  }

  /** Padding by zero is the identity. */
  lemma AddPaddingZero(s: string)
    ensures AddPadding(s, 0) == s
  {
  }

  /** Whether the input named a single `.vm` file or a directory of them. */
  datatype PathType = File | Dir

  /** The extension of the generated file. */
  function Extension(debug: bool): string {
    if debug then ".debug.asm" else ".asm"
  }

  /** The pieces `Path::components` keeps between separators, in order:
      empty pieces (from repeated or trailing `/`) and `.` are dropped,
      `..` and names are kept. */
  function Named(pieces: seq<string>): (r: seq<string>)
    ensures forall x :: x in r <==> x in pieces && x != "" && x != "."
  {
    if |pieces| == 0 then []
    else
      assert pieces == [pieces[0]] + pieces[1..];
      (if pieces[0] == "" || pieces[0] == "." then [] else [pieces[0]]) + Named(pieces[1..])
  }

  /** `Named` keeps the order of the pieces: it maps a concatenation to the
      concatenation of its parts. */
  lemma {:induction false} NamedAppend(a: seq<string>, b: seq<string>)
    ensures Named(a + b) == Named(a) + Named(b)
    decreases |a|
  {
    if |a| == 0 {
      assert a + b == b;
    } else {
      assert (a + b)[1..] == a[1..] + b;
      NamedAppend(a[1..], b);
    }
  }

  /** The first piece of a split is empty exactly when the text is empty
      or starts with the separator. */
  lemma FirstPiece(s: string, sep: char)
    ensures Split(s, sep)[0] == "" <==> |s| == 0 || s[0] == sep
  {
  }

  /** A component other than the root holds no separator. */
  predicate NoSeparator(c: string) {
    forall i :: 0 <= i < |c| ==> c[i] != '/'
  }

  /** `Path::iter` on the string form of a Unix path: the root `/` when
      the path starts with a separator, `.` when a relative path starts
      with `.` followed by a separator or nothing, then the named pieces. */
  function Components(path: string): (r: seq<string>)
    ensures |r| > 0 <==> |path| > 0
    ensures |path| > 0 && path[0] == '/' <==> |r| > 0 && r[0] == "/"
    ensures forall k :: 0 <= k < |r| ==> |r[k]| > 0
    ensures forall k :: 0 <= k < |r| ==> (k == 0 && r[k] == "/") || NoSeparator(r[k])
  {
    var pieces := Split(path, '/');
    var root := if |path| > 0 && path[0] == '/' then ["/"] else [];
    var cur := if |root| == 0 && pieces[0] == "." then ["."] else [];
    ComponentsParts(path, root, cur);
    root + cur + Named(pieces)
  }

  /** The facts `Components` states, for its three parts. */
  lemma ComponentsParts(path: string, root: seq<string>, cur: seq<string>)
    requires root == if |path| > 0 && path[0] == '/' then ["/"] else []
    requires cur == if |root| == 0 && Split(path, '/')[0] == "." then ["."] else []
    ensures var r := root + cur + Named(Split(path, '/'));
            && (|r| > 0 <==> |path| > 0)
            && (|path| > 0 && path[0] == '/' <==> |r| > 0 && r[0] == "/")
            && (forall k :: 0 <= k < |r| ==> |r[k]| > 0)
            && (forall k :: 0 <= k < |r| ==> (k == 0 && r[k] == "/") || NoSeparator(r[k]))
  {
    var pieces := Split(path, '/');
    var named := Named(pieces);
    var r := root + cur + named;
    NamedComponents(path);
    assert |root| + |cur| <= 1;
    forall k | 0 <= k < |r|
      ensures |r[k]| > 0 && ((k == 0 && r[k] == "/") || NoSeparator(r[k]))
    {
      if k >= |root| + |cur| {
        assert r[k] == named[k - |root| - |cur|];
        assert r[k] in named;
      }
    }
    if |path| > 0 && path[0] != '/' && |cur| == 0 {
      assert |named| > 0 && named[0] == pieces[0];
      assert r[0] == named[0];
    }
  }

  /** What `Components` needs of the named pieces: none is empty, none
      holds a separator, and a relative path whose first piece is not `.`
      has that piece first. */
  lemma NamedComponents(path: string)
    ensures var pieces := Split(path, '/');
            var named := Named(pieces);
            && (forall x :: x in named ==> x != "" && NoSeparator(x))
            && (|path| > 0 && path[0] != '/' && pieces[0] != "." ==> |named| > 0 && named[0] == pieces[0])
  {
    var pieces := Split(path, '/');
    var named := Named(pieces);
    forall x | x in named
      ensures x != "" && NoSeparator(x)
    {
      var k :| 0 <= k < |pieces| && pieces[k] == x;
    }
    FirstPiece(path, '/');
    assert pieces == [pieces[0]] + pieces[1..];
  }

  /** The component `create_output_path` names its file after: the last
      named piece, or a leading `.` or the root when there is none. */
  lemma LastComponent(path: string)
    requires |Named(Split(path, '/'))| > 0
    ensures var named := Named(Split(path, '/'));
            Components(path)[|Components(path)| - 1] == named[|named| - 1]
  {
  }

  /** `PathBuf::push` of a name: an absolute name replaces the path;
      otherwise a separator is inserted unless the path is empty or already
      ends with one. */
  function PushPath(dir: string, name: string): string {
    if |name| > 0 && name[0] == '/' then name
    else if |dir| == 0 || dir[|dir| - 1] == '/' then dir + name
    else dir + "/" + name
  }

  /** With a relative name, the path is kept as a prefix and the result
      ends with `/name`. */
  lemma PushPathShape(dir: string, name: string)
    requires |dir| > 0 && (|name| == 0 || name[0] != '/')
    ensures StartsWith(PushPath(dir, name), dir)
    ensures EndsWith(PushPath(dir, name), "/" + name)
  {
    var out := PushPath(dir, name);
    if dir[|dir| - 1] == '/' {
      assert out[|out| - |name| - 1..] == [dir[|dir| - 1]] + name;
    } else {
      assert out == dir + ("/" + name);
    }
  }

  /** `create_output_path(path, path_type, is_debug_option)`.

      For a file, every trailing `.vm` is removed and the extension appended.
      For a directory, the output file sits inside it and is named after its
      last component; when that component is the root, the name is absolute
      and replaces the path. An empty path has no component and makes
      `unwrap` abort. */
  function CreateOutputPath(path: string, pathType: PathType, debug: bool): (r: Result<string>)
    ensures pathType == File ==>
              r.Ok? && EndsWith(r.value, Extension(debug))
              && r.value[..|r.value| - |Extension(debug)|] == TrimEndMatches(path, ".vm")
    ensures pathType == Dir ==> (r.Ok? <==> |path| > 0)
    ensures pathType == Dir && r.Ok? ==>
              var last := Components(path)[|Components(path)| - 1];
              if last == "/" then r.value == "/" + Extension(debug)
              else
                && StartsWith(r.value, path) && EndsWith(r.value, "/" + last + Extension(debug))
                && |r.value| == |path| + (if path[|path| - 1] == '/' then 0 else 1) + |last| + |Extension(debug)|
  {
    match pathType
    case File =>
      Ok(TrimEndMatches(path, ".vm") + Extension(debug))
    case Dir =>
      var comps := Components(path);
      if |comps| == 0 then Fatal(UnwrapNone)
      else
        var name := comps[|comps| - 1] + Extension(debug);
        DirOutputShape(path, debug);
        Ok(PushPath(path, name))
  }

  /** The file a directory's output is pushed as: inside the directory
      unless the last component is the root. */
  lemma DirOutputShape(path: string, debug: bool)
    requires |path| > 0
    ensures var comps := Components(path);
            var last := comps[|comps| - 1];
            var out := PushPath(path, last + Extension(debug));
            if last == "/" then out == "/" + Extension(debug)
            else
              && StartsWith(out, path) && EndsWith(out, "/" + last + Extension(debug))
              && |out| == |path| + (if path[|path| - 1] == '/' then 0 else 1) + |last| + |Extension(debug)|
  {
    var comps := Components(path);
    var last := comps[|comps| - 1];
    var name := last + Extension(debug);
    if last != "/" {
      assert NoSeparator(last) && name[0] == last[0];
      PushPathShape(path, name);
      assert "/" + last + Extension(debug) == "/" + name;
    }
  }

  /** The output of a directory that is not the root, as one value: the
      directory, a separator unless it already ends in one, the last
      component and the extension. */
  lemma DirOutputValue(path: string, debug: bool)
    requires |path| > 0
    ensures var comps := Components(path);
            var last := comps[|comps| - 1];
            last != "/" ==>
              CreateOutputPath(path, Dir, debug)
                == Ok((if path[|path| - 1] == '/' then path else path + "/") + last + Extension(debug))
  {
    var comps := Components(path);
    var last := comps[|comps| - 1];
    var r := CreateOutputPath(path, Dir, debug);
    var suffix := "/" + last + Extension(debug);
    if last != "/" {
      var out := r.value;
      assert StartsWith(out, path) && EndsWith(out, suffix);
      if path[|path| - 1] == '/' {
        var head := path[..|path| - 1];
        assert out[..|head|] == head by { assert out[..|path|][..|head|] == head; }
        PinnedByEnds(out, head, suffix);
        assert path + last + Extension(debug) == head + suffix by { assert path == head + "/"; }
      } else {
        PinnedByEnds(out, path, suffix);
        assert (path + "/") + last + Extension(debug) == path + suffix;
      }
    }
  }

  /** A string is fixed by a prefix and a suffix that together cover it. */
  lemma PinnedByEnds(s: string, prefix: string, suffix: string)
    requires |s| == |prefix| + |suffix| && s[..|prefix|] == prefix && EndsWith(s, suffix)
    ensures s == prefix + suffix
  {
    assert s == s[..|prefix|] + s[|prefix|..];
  }

  /** The root directory names its output `/.asm`. */
  lemma RootOutputPath(debug: bool)
    ensures CreateOutputPath("/", Dir, debug) == Ok("/" + Extension(debug))
  {
    assert Components("/")[0] == "/";
  }

  /** The components of `a/b` are `a` and `b`. */
  lemma TwoPieceComponents(a: string, b: string)
    requires |a| > 0 && a != "." && NoSeparator(a)
    requires |b| > 0 && b != "." && NoSeparator(b)
    ensures Components(a + "/" + b) == [a, b]
  {
    var path := a + "/" + b;
    assert path == a + ['/'] + b;
    SplitWithoutSeparator(b, '/');
    SplitAfterPiece(a, b, '/');
    assert Split(path, '/') == [a, b];
    assert [a, b][1..] == [b] && [b][1..] == [];
    assert Named([b]) == [b];
    assert Named([a, b]) == [a, b];
    assert path[0] == a[0] != '/';
  }

  /** A relative directory path of two named pieces `a/b` gets the file
      `a/b/b.asm` (or `.debug.asm`). */
  lemma TwoPieceOutputPath(a: string, b: string, debug: bool)
    requires |a| > 0 && a != "." && NoSeparator(a)
    requires |b| > 0 && b != "." && NoSeparator(b)
    ensures CreateOutputPath(a + "/" + b, Dir, debug) == Ok(a + "/" + b + "/" + b + Extension(debug))
  {
    var path := a + "/" + b;
    TwoPieceComponents(a, b);
    var name := b + Extension(debug);
    assert name[0] == b[0] != '/';
    assert path[|path| - 1] == b[|b| - 1] != '/';
    assert PushPath(path, name) == path + "/" + name;
    assert path + "/" + name == a + "/" + b + "/" + b + Extension(debug);
  }

  /** The example in the documentation comment of `create_output_path`. */
  lemma CreateOutputPathExample()
    ensures CreateOutputPath(".../test_directory", Dir, true)
              == Ok(".../test_directory/test_directory.debug.asm")
  {
    var a, b := "...", "test_directory";
    ExampleNames();
    ExamplePath();
    ExampleOutput(a + "/" + b);
    TwoPieceOutputPath(a, b, true);
  }

  /** The names of the documented example hold no separator. */
  lemma ExampleNames()
    ensures NoSeparator("...") && NoSeparator("test_directory")
  {
  }

  lemma ExamplePath()
    ensures "..." + "/" + "test_directory" == ".../test_directory"
  {
  }

  lemma ExampleOutput(path: string)
    requires path == ".../test_directory"
    ensures path + "/" + "test_directory" + Extension(true)
              == ".../test_directory/test_directory.debug.asm"
  {
  }

}
