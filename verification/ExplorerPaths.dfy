/** The paths of the explorer: how a requested folder is normalised, and which requests come out as they went in. */
module ExplorerPaths {

  // Segments.

  predicate HasPrefix(s: string, prefix: string) {
    |prefix| <= |s| && s[..|prefix|] == prefix
  }

  /** The first slash, or the length if there is none. */
  function SlashIndex(s: string): (i: nat)
    ensures i <= |s| && (i < |s| ==> s[i] == '/') && forall j :: 0 <= j < i ==> s[j] != '/'
  {
    if s == "" || s[0] == '/' then 0 else 1 + SlashIndex(s[1..])
  }

  predicate NoSlash(s: string) { SlashIndex(s) == |s| }

  lemma SlashFirst(s: string, i: nat)
    requires i <= |s| && (forall j :: 0 <= j < i ==> s[j] != '/') && (i < |s| ==> s[i] == '/')
    ensures SlashIndex(s) == i
  {
    var k := SlashIndex(s);
    assert k < |s| ==> s[k] == '/';
  }

  function Split(s: string): (segments: seq<string>)
    ensures segments != []
    decreases |s|
  {
    var i := SlashIndex(s);
    if i == |s| then [s] else [s[..i]] + Split(s[i + 1..])
  }

  function Join(segments: seq<string>): string {
    if segments == [] then "" else if |segments| == 1 then segments[0] else segments[0] + "/" + Join(segments[1..])
  }

  lemma AroundSlash(s: string, i: nat)
    requires i < |s| && s[i] == '/'
    ensures s == s[..i] + "/" + s[i + 1..]
  {
  }

  lemma JoinFirst(first: string, rest: seq<string>)
    requires rest != []
    ensures Join([first] + rest) == first + "/" + Join(rest)
  {
    assert ([first] + rest)[1..] == rest;
  }

  lemma {:induction false} JoinSplit(s: string)
    ensures Join(Split(s)) == s
    decreases |s|
  {
    var i := SlashIndex(s);
    if i < |s| {
      JoinSplit(s[i + 1..]);
      JoinFirst(s[..i], Split(s[i + 1..]));
      AroundSlash(s, i);
    }
  }

  /** The first segment of a path that goes on after it. */
  lemma SplitFirst(first: string, rest: string)
    requires NoSlash(first)
    ensures Split(first + "/" + rest) == [first] + Split(rest)
  {
    var s := first + "/" + rest;
    assert forall j :: 0 <= j < |first| ==> s[j] == first[j];
    SlashFirst(s, |first|);
    assert s[..|first|] == first && s[|first| + 1..] == rest;
  }

  lemma {:induction false} SplitJoin(segments: seq<string>)
    requires segments != [] && forall x :: x in segments ==> NoSlash(x)
    ensures Split(Join(segments)) == segments
  {
    assert segments[0] in segments && segments == [segments[0]] + segments[1..];
    if |segments| > 1 {
      SplitFirst(segments[0], Join(segments[1..]));
      SplitJoin(segments[1..]);
    }
  }

  lemma {:induction false} SplitHasNoSlash(s: string)
    ensures forall x :: x in Split(s) ==> NoSlash(x)
    decreases |s|
  {
    var i := SlashIndex(s);
    if i < |s| {
      SlashFirst(s[..i], i);
      SplitHasNoSlash(s[i + 1..]);
    }
  }

  lemma {:induction false} SplitLast(s: string, last: string)
    requires NoSlash(last)
    ensures Split(s + "/" + last) == Split(s) + [last]
    decreases |s|
  {
    var i := SlashIndex(s);
    if i == |s| {
      SplitFirst(s, last);
    } else {
      SlashFirst(s[..i], i);
      SplitLast(s[i + 1..], last);
      Regroup(s, i, last);
      SplitFirst(s[..i], s[i + 1..] + "/" + last);
      assert [s[..i]] + (Split(s[i + 1..]) + [last]) == [s[..i]] + Split(s[i + 1..]) + [last];
    }
  }

  lemma Regroup(s: string, i: nat, last: string)
    requires i < |s| && s[i] == '/'
    ensures s + "/" + last == s[..i] + "/" + (s[i + 1..] + "/" + last)
  {
    assert s == s[..i] + "/" + s[i + 1..];
  }

  // path.Clean on a relative path: what is kept of its segments.

  /** A segment that cleaning leaves alone wherever it stands. */
  predicate Plain(segment: string) {
    segment != "" && segment != "." && segment != ".."
  }

  /** One segment after those kept so far. */
  function Keep(kept: seq<string>, segment: string): seq<string> {
    if segment == "" || segment == "." then kept
    else if segment != ".." then kept + [segment]
    else if kept != [] && kept[|kept| - 1] != ".." then kept[..|kept| - 1]
    else kept + [segment]
  }

  function Reduce(segments: seq<string>, kept: seq<string>): seq<string> {
    if segments == [] then kept else Reduce(segments[1..], Keep(kept, segments[0]))
  }

  lemma {:induction false} PlainIsKept(segments: seq<string>, kept: seq<string>)
    requires forall x :: x in segments ==> Plain(x)
    ensures Reduce(segments, kept) == kept + segments
    decreases |segments|
  {
    if segments != [] {
      assert segments == [segments[0]] + segments[1..] && segments[0] in segments;
      PlainIsKept(segments[1..], kept + [segments[0]]);
      assert kept + segments == kept + [segments[0]] + segments[1..];
    }
  }

  /** Parent segments first, then plain ones. */
  ghost predicate Climbing(kept: seq<string>) {
    && (forall x :: x in kept ==> x == ".." || Plain(x))
    && (forall i, j :: 0 <= i < j < |kept| && kept[j] == ".." ==> kept[i] == "..")
  }

  lemma KeepClimbs(kept: seq<string>, segment: string)
    requires Climbing(kept)
    ensures Climbing(Keep(kept, segment)) && forall x :: x in Keep(kept, segment) ==> x in kept || x == segment
  {
    var last, next := |kept| - 1, Keep(kept, segment);
    assert kept != [] && kept[last] == ".." ==> forall i :: 0 <= i < last ==> kept[i] == "..";
    forall i, j | 0 <= i < j < |next| && next[j] == ".." ensures next[i] == ".." {
      assert j < |kept| ==> next[j] == kept[j] && next[i] == kept[i];
    }
  }

  lemma {:induction false} ReducedClimbs(segments: seq<string>, kept: seq<string>)
    requires Climbing(kept)
    ensures Climbing(Reduce(segments, kept))
    ensures forall x :: x in Reduce(segments, kept) ==> x in kept || x in segments
    decreases |segments|
  {
    if segments != [] {
      KeepClimbs(kept, segments[0]);
      ReducedClimbs(segments[1..], Keep(kept, segments[0]));
      assert segments == [segments[0]] + segments[1..];
    }
  }

  /** Characters and separators: cleaning never makes a path longer, and only then changes nothing when it drops
      nothing. */
  function Weight(segments: seq<string>): nat {
    if segments == [] then 0 else |segments[0]| + 1 + Weight(segments[1..])
  }

  lemma {:induction false} WeightAppend(segments: seq<string>, last: string)
    ensures Weight(segments + [last]) == Weight(segments) + |last| + 1
  {
    if segments != [] {
      assert (segments + [last])[1..] == segments[1..] + [last];
      WeightAppend(segments[1..], last);
    }
  }

  lemma {:induction false} WeightOfSplit(s: string)
    ensures Weight(Split(s)) == |s| + 1
    decreases |s|
  {
    var i := SlashIndex(s);
    if i < |s| {
      WeightOfSplit(s[i + 1..]);
      assert Split(s)[1..] == Split(s[i + 1..]);
    }
  }

  lemma {:induction false} WeightOfJoin(segments: seq<string>)
    requires segments != []
    ensures |Join(segments)| + 1 == Weight(segments)
  {
    if |segments| > 1 {
      WeightOfJoin(segments[1..]);
    }
  }

  lemma {:induction false} ReduceShortens(segments: seq<string>, kept: seq<string>)
    ensures Weight(Reduce(segments, kept)) <= Weight(kept) + Weight(segments)
    ensures Weight(Reduce(segments, kept)) == Weight(kept) + Weight(segments)
      ==> Reduce(segments, kept) == kept + segments
    decreases |segments|
  {
    if segments != [] {
      KeepShortens(kept, segments[0]);
      ReduceShortens(segments[1..], Keep(kept, segments[0]));
      FirstMoves(kept, segments);
    }
  }

  lemma FirstMoves(kept: seq<string>, segments: seq<string>)
    requires segments != []
    ensures kept + [segments[0]] + segments[1..] == kept + segments
  {
  }

  lemma KeepShortens(kept: seq<string>, segment: string)
    ensures Weight(Keep(kept, segment)) <= Weight(kept) + |segment| + 1
    ensures Weight(Keep(kept, segment)) == Weight(kept) + |segment| + 1 ==> Keep(kept, segment) == kept + [segment]
  {
    WeightAppend(kept, segment);
    if kept != [] {
      assert kept == kept[..|kept| - 1] + [kept[|kept| - 1]];
      WeightAppend(kept[..|kept| - 1], kept[|kept| - 1]);
    }
  }

  // normalizeExplorerPath.

  /** unicode.IsSpace. */
  predicate IsSpace(c: char) {
    || '\t' <= c <= '\r' || c == ' ' || c == '\U{0085}' || c == '\U{00A0}' || c == '\U{1680}'
    || '\U{2000}' <= c <= '\U{200A}' || c == '\U{2028}' || c == '\U{2029}' || c == '\U{202F}' || c == '\U{205F}'
        || c == '\U{3000}'
  }

  function TrimLeft(s: string): (t: string)
    ensures |t| <= |s| && (|t| == |s| ==> t == s) && (t != "" ==> !IsSpace(t[0])) && forall c :: c in t ==> c in s
  {
    if s != "" && IsSpace(s[0]) then TrimLeft(s[1..]) else s
  }

  function TrimRight(s: string): (t: string)
    ensures |t| <= |s| && (|t| == |s| ==> t == s) && (t != "" ==> !IsSpace(t[|t| - 1]) && t[0] == s[0])
      && forall c :: c in t ==> c in s
  {
    if s != "" && IsSpace(s[|s| - 1]) then TrimRight(s[..|s| - 1]) else s
  }

  /** strings.TrimSpace. */
  function Trim(s: string): (t: string)
    ensures |t| <= |s| && (|t| == |s| ==> t == s) && forall c :: c in t ==> c in s
    ensures t == s <==> Trimmed(s)
  {
    TrimRight(TrimLeft(s))
  }

  predicate Trimmed(s: string) {
    s != "" ==> !IsSpace(s[0]) && !IsSpace(s[|s| - 1])
  }

  function Slashed(s: string): (t: string)
    ensures |t| == |s| && '\\' !in t
    ensures t == s <==> '\\' !in s
  {
    if s == "" then ""
    else
      assert s == [s[0]] + s[1..];
      [if s[0] == '\\' then '/' else s[0]] + Slashed(s[1..])
  }

  datatype Request = At(path: string) | NotRelative | EscapesRoot

  function NormalizeExplorerPath(input: string): Request {
    var s := Trim(Slashed(input));
    if s == "" || s == "/" then At("")
    else if s[0] == '/' then NotRelative
    else
      var kept := Reduce(Split(s), []);
      if kept == [] then At("")
      else if kept[0] == ".." then EscapesRoot
      else At(Join(kept))
  }

  /** A path that cleaning, trimming and replacing backslashes leave alone. */
  predicate Clean(p: string) {
    p == "" || (Trimmed(p) && '\\' !in p && forall x :: x in Split(p) ==> Plain(x))
  }

  lemma KeptIsPlain(s: string)
    ensures var kept := Reduce(Split(s), []);
      kept != [] && kept[0] != ".." ==> forall x :: x in kept ==> Plain(x) && NoSlash(x)
  {
    ReducedClimbs(Split(s), []);
    SplitHasNoSlash(s);
  }

  /** Normalising never makes a path longer; one of the same length is the same. */
  lemma NormalizeShortens(input: string)
    requires NormalizeExplorerPath(input).At?
    ensures var q := NormalizeExplorerPath(input).path;
      |q| <= |input| && (|q| == |input| ==> q == Slashed(input) && Trimmed(q))
  {
    var s := Trim(Slashed(input));
    if s != "" && s != "/" {
      var kept := Reduce(Split(s), []);
      ReduceShortens(Split(s), []);
      WeightOfSplit(s);
      if kept != [] {
        WeightOfJoin(kept);
        JoinSplit(s);
        assert [] + Split(s) == Split(s);
      }
    }
  }

  lemma CleanIsFixed(p: string)
    requires Clean(p)
    ensures NormalizeExplorerPath(p) == At(p)
  {
    if p != "" {
      PlainIsKept(Split(p), []);
      JoinSplit(p);
      CleanIsRelative(p);
      assert [] + Split(p) == Split(p);
    }
  }

  lemma FixedIsPlain(p: string)
    requires NormalizeExplorerPath(p) == At(p) && p != ""
    ensures Clean(p)
  {
    NormalizeShortens(p);
    assert Trim(Slashed(p)) == p;
    KeptIsPlain(p);
    SplitJoin(Reduce(Split(p), []));
  }

  /** A request comes out as it went in exactly when it is clean. */
  lemma FixedIsClean(p: string)
    ensures NormalizeExplorerPath(p) == At(p) <==> Clean(p)
  {
    if Clean(p) {
      CleanIsFixed(p);
    } else if NormalizeExplorerPath(p) == At(p) {
      FixedIsPlain(p);
    }
  }

  lemma CleanIsRelative(p: string)
    requires p != "" && forall x :: x in Split(p) ==> Plain(x)
    ensures p[0] != '/' && p != "/" && Split(p)[0] != ".."
  {
    assert Split(p)[0] in Split(p);
    assert Split(p)[0] == p[..SlashIndex(p)];
  }

  lemma {:induction false} SplitChars(s: string)
    ensures forall x, c :: x in Split(s) && c in x ==> c in s
    decreases |s|
  {
    var i := SlashIndex(s);
    if i < |s| {
      SplitChars(s[i + 1..]);
    }
  }

  lemma {:induction false} JoinChars(segments: seq<string>)
    ensures forall c :: c in Join(segments) ==> c == '/' || exists x :: x in segments && c in x
  {
    if |segments| > 1 {
      JoinChars(segments[1..]);
      assert segments == [segments[0]] + segments[1..];
    } else if segments != [] {
      assert segments[0] in segments;
    }
  }

  // The path of a folder in a view.

  function JoinPath(parent: string, name: string): string {
    if parent == "" then name else parent + "/" + name
  }

  /** Opening a folder of a view opens that folder. */
  predicate OpensItself(p: string) {
    p != "" && NormalizeExplorerPath(p) == At(p)
  }

  /** When a folder of a view opens itself, by its name: below a folder that is clean but for white space at its ends,
      which is what every normalised request is, the name must be plain and without backslashes, and the whole path
      trimmed. */
  lemma FolderOpensItself(current: string, name: string)
    requires current == "" || ('\\' !in current && forall x :: x in Split(current) ==> Plain(x))
    requires NoSlash(name)
    ensures OpensItself(JoinPath(current, name)) <==> Plain(name) && '\\' !in name && Trimmed(JoinPath(current, name))
  {
    var p := JoinPath(current, name);
    FixedIsClean(p);
    if current == "" {
      assert Split(name) == [name];
    } else {
      SplitLast(current, name);
      assert forall x :: x in Split(p) <==> x in Split(current) || x == name;
    }
  }

  /** White space and a slash at the end: "a " and "a/" do not open themselves, nor does any such path. */
  lemma FoldersThatOpenAnother(p: string)
    ensures p != "" && IsSpace(p[|p| - 1]) ==> !OpensItself(p)
    ensures !OpensItself(p + "/")
  {
    FixedIsClean(p);
    FixedIsClean(p + "/");
    SlashIsNotPlain(p);
  }

  lemma SlashIsNotPlain(p: string)
    ensures exists x :: x in Split(p + "/") && !Plain(x)
  {
    SplitLast(p, "");
    assert p + "/" == p + "/" + "";
    assert Split(p + "/")[|Split(p)|] == "" && !Plain("");
  }

  /** A plain name followed by a slash and a dot comes out as the name, with the white space it ends in. */
  lemma DotIsDropped(name: string)
    requires Plain(name) && NoSlash(name) && '\\' !in name && !IsSpace(name[0])
    ensures NormalizeExplorerPath(name + "/.") == At(name)
  {
    var input := name + "/" + ".";
    assert input == name + "/.";
    assert input[0] == name[0] != '/' && input[|input| - 1] == '.';
    SplitLast(name, ".");
    assert Split(name) == [name];
    DotReduces(name);
  }

  lemma DotReduces(name: string)
    requires Plain(name)
    ensures Reduce([name] + ["."], []) == [name] && Join([name]) == name
  {
    assert ([name] + ["."])[1..] == ["."];
    assert ["."][1..] == [];
    assert Keep([], name) == [name] && Keep([name], ".") == [name];
    assert Reduce(["."], [name]) == Reduce([], [name]) == [name];
  }

  /** So a normalised request need not normalise to itself. */
  lemma NormalizedTwice()
    ensures NormalizeExplorerPath("a /.") == At("a ") && NormalizeExplorerPath("a ") != At("a ")
  {
    DotIsDropped("a ");
    assert "a " + "/." == "a /." && "a "[1] == ' ';
    FoldersThatOpenAnother("a ");
  }

  /** What a normalised request is, and that normalising again only trims it. */
  lemma NormalizedIsAlmostClean(input: string)
    requires NormalizeExplorerPath(input).At?
    ensures var q := NormalizeExplorerPath(input).path;
      q == "" || ('\\' !in q && forall x :: x in Split(q) ==> Plain(x))
    ensures var q := NormalizeExplorerPath(input).path;
      NormalizeExplorerPath(q) == At(q) <==> Trimmed(q)
  {
    var q := NormalizeExplorerPath(input).path;
    var s := Trim(Slashed(input));
    if q != "" {
      var kept := Reduce(Split(s), []);
      KeptIsPlain(s);
      SplitJoin(kept);
      ReducedClimbs(Split(s), []);
      SplitChars(s);
      JoinChars(kept);
    }
    FixedIsClean(q);
  }
}
