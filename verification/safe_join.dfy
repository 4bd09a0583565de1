/** Lexical path joining on Unix paths: what `safeJoin` accepts, and that it stays below its base. */
module PathJoining {
  import opened GoText

  /** The slash-separated parts of a path, empty ones included. */
  function Split(s: string): (r: seq<string>)
    ensures r != []
  {
    if s == "" then [""]
    else if s[0] == '/' then [""] + Split(s[1..])
    else var rest := Split(s[1..]); [[s[0]] + rest[0]] + rest[1..]
  }

  function Join(parts: seq<string>): string {
    if parts == [] then ""
    else if |parts| == 1 then parts[0]
    else parts[0] + "/" + Join(parts[1..])
  }

  /** An ordinary file name. */
  predicate Plain(part: string) {
    part != "" && part != "." && part != ".." && '/' !in part
  }

  /** Processes one part of a path after the parts in `stack`. */
  function Push(rooted: bool, stack: seq<string>, part: string): seq<string> {
    if part == "" || part == "." then stack
    else if part != ".." then stack + [part]
    else if stack != [] && stack[|stack| - 1] != ".." then stack[..|stack| - 1]
    else if rooted then stack
    else stack + [".."]
  }

  function Resolve(rooted: bool, stack: seq<string>, parts: seq<string>): seq<string>
    decreases |parts|
  {
    if parts == [] then stack else Resolve(rooted, Push(rooted, stack, parts[0]), parts[1..])
  }

  predicate IsAbs(path: string) {
    HasPrefix(path, "/")
  }

  function Render(rooted: bool, stack: seq<string>): string {
    if rooted then "/" + Join(stack) else if stack == [] then "." else Join(stack)
  }

  /** The parts left after resolving "." and "..". */
  function Parts(path: string): seq<string> {
    Resolve(IsAbs(path), [], Split(path))
  }

  /** `filepath.Clean`, by its documented rules. */
  function Clean(path: string): string {
    if path == "" then "." else Render(IsAbs(path), Parts(path))
  }

  /** `filepath.Join` of two elements: empty elements are ignored. */
  function PathJoin(base: string, elem: string): string {
    if base == "" && elem == "" then ""
    else if base == "" then Clean(elem)
    else if elem == "" then Clean(base)
    else Clean(base + "/" + elem)
  }

  function Slashed(s: string): (r: string)
    ensures |r| == |s| && forall k | 0 <= k < |s| :: r[k] == if s[k] == '\\' then '/' else s[k]
  {
    seq(|s|, k requires 0 <= k < |s| => if s[k] == '\\' then '/' else s[k])
  }

  function SafeJoin(base: string, target: string): Option<string> {
    var slashed := Slashed(target);
    if ':' in slashed then None
    else
      var clean := Clean(slashed);
      if IsAbs(clean) || HasPrefix(clean, "..") then None
      else
        var path := PathJoin(base, clean);
        if HasPrefix(path, Clean(base) + "/") then Some(path) else None
  }

  // Splitting and joining.

  predicate NoSlashes(parts: seq<string>) {
    forall k | 0 <= k < |parts| :: '/' !in parts[k]
  }

  lemma {:induction false} SplitHasNoSlashes(s: string)
    ensures NoSlashes(Split(s))
  {
    if s != "" {
      SplitHasNoSlashes(s[1..]);
    }
  }

  lemma {:induction false} SplitPlain(part: string)
    requires '/' !in part
    ensures Split(part) == [part]
  {
    if part != "" {
      SplitPlain(part[1..]);
      assert part == [part[0]] + part[1..];
    }
  }

  lemma {:induction false} SplitConcat(a: string, b: string)
    ensures Split(a + "/" + b) == Split(a) + Split(b)
  {
    if a == "" {
      assert (a + "/" + b)[1..] == b;
    } else {
      assert (a + "/" + b)[0] == a[0] && (a + "/" + b)[1..] == a[1..] + "/" + b;
      SplitConcat(a[1..], b);
    }
  }

  lemma {:induction false} SplitJoin(parts: seq<string>)
    requires parts != [] && NoSlashes(parts)
    ensures Split(Join(parts)) == parts
  {
    if |parts| == 1 {
      SplitPlain(parts[0]);
    } else {
      SplitJoin(parts[1..]);
      SplitPlain(parts[0]);
      SplitConcat(parts[0], Join(parts[1..]));
    }
  }

  lemma {:induction false} JoinConcat(a: seq<string>, b: seq<string>)
    requires a != [] && b != []
    ensures Join(a + b) == Join(a) + "/" + Join(b)
  {
    if |a| == 1 {
      assert (a + b)[1..] == b;
    } else {
      assert (a + b)[1..] == a[1..] + b;
      JoinConcat(a[1..], b);
    }
  }

  lemma {:induction false} ResolveConcat(rooted: bool, stack: seq<string>, a: seq<string>, b: seq<string>)
    ensures Resolve(rooted, stack, a + b) == Resolve(rooted, Resolve(rooted, stack, a), b)
    decreases |a|
  {
    if a == [] {
      assert a + b == b;
    } else {
      assert (a + b)[0] == a[0] && (a + b)[1..] == a[1..] + b;
      ResolveConcat(rooted, Push(rooted, stack, a[0]), a[1..], b);
    }
  }

  predicate AllPlain(parts: seq<string>) {
    forall k | 0 <= k < |parts| :: Plain(parts[k])
  }

  lemma {:induction false} ResolvePlain(rooted: bool, stack: seq<string>, parts: seq<string>)
    requires AllPlain(parts)
    ensures Resolve(rooted, stack, parts) == stack + parts
    decreases |parts|
  {
    if parts == [] {
      assert stack + parts == stack;
    } else {
      ResolvePlain(rooted, stack + [parts[0]], parts[1..]);
      assert stack + [parts[0]] + parts[1..] == stack + parts;
    }
  }

  /** A resolved stack is some number of ".." (none on a rooted path) and then plain names. */
  ghost predicate Resolved(rooted: bool, stack: seq<string>, ups: nat) {
    ups <= |stack| && (rooted ==> ups == 0)
    && (forall k | 0 <= k < ups :: stack[k] == "..")
    && (forall k | ups <= k < |stack| :: Plain(stack[k]))
  }

  lemma {:induction false} ResolveResolves(rooted: bool, stack: seq<string>, parts: seq<string>, ups: nat)
    returns (after: nat)
    requires Resolved(rooted, stack, ups) && NoSlashes(parts)
    ensures Resolved(rooted, Resolve(rooted, stack, parts), after)
    decreases |parts|
  {
    if parts == [] {
      after := ups;
    } else {
      var next := Push(rooted, stack, parts[0]);
      var ups' := if parts[0] == ".." && (stack == [] || stack[|stack| - 1] == "..") && !rooted then ups + 1 else ups;
      assert Resolved(rooted, next, ups');
      after := ResolveResolves(rooted, next, parts[1..], ups');
    }
  }

  /** A relative cleaned path that does not start with ".." is "." or made of plain names only. */
  lemma RelativeIsPlain(path: string)
    requires path != "" && !IsAbs(Clean(path)) && !HasPrefix(Clean(path), "..")
    ensures !IsAbs(path) && AllPlain(Parts(path))
    ensures Clean(path) == if Parts(path) == [] then "." else Join(Parts(path))
  {
    SplitHasNoSlashes(path);
    var ups := ResolveResolves(IsAbs(path), [], Split(path), 0);
    if ups > 0 {
      LeadingUp(path, ups);
    }
  }

  lemma LeadingUp(path: string, ups: nat)
    requires path != "" && Resolved(IsAbs(path), Parts(path), ups) && ups > 0
    ensures HasPrefix(Clean(path), "..")
  {
    var parts := Parts(path);
    assert parts[0] == ".." && HasPrefix(Join(parts), parts[0]);
  }

  /** Plain names joined below a base resolve to the base's parts and themselves. */
  lemma PartsBelow(base: string, names: seq<string>)
    requires names != [] && AllPlain(names) && base != ""
    ensures var path := base + "/" + Join(names);
            IsAbs(path) == IsAbs(base) && Parts(path) == Parts(base) + names
  {
    var path := base + "/" + Join(names);
    SplitConcat(base, Join(names));
    SplitJoin(names);
    ResolveConcat(IsAbs(base), [], Split(base), names);
    ResolvePlain(IsAbs(base), Parts(base), names);
    assert path[0] == base[0];
    assert IsAbs(path) == IsAbs(base);
  }

  /** Joining plain names below a base appends them to what the base cleans to. */
  lemma JoinBelow(base: string, names: seq<string>)
    requires names != [] && AllPlain(names) && base != ""
    ensures Clean(base + "/" + Join(names)) == Render(IsAbs(base), Parts(base) + names)
  {
    PartsBelow(base, names);
  }

  lemma JoinStartsPlain(names: seq<string>)
    requires names != [] && AllPlain(names)
    ensures Join(names) != "" && Join(names)[0] != '/' && !HasPrefix(Join(names), "./") && Join(names) != "."
  {
    var s := Join(names);
    SplitJoin(names);
    assert s[0] == names[0][0];
    DotSlashSplits(s);
    SplitPlain(".");
  }

  lemma DotSlashSplits(s: string)
    ensures HasPrefix(s, "./") ==> Split(s)[0] == "."
  {
    if HasPrefix(s, "./") {
      assert s == "." + "/" + s[2..];
      SplitPlain(".");
      SplitConcat(".", s[2..]);
    }
  }

  /** The targets `safeJoin` can accept below a proper base. */
  predicate Acceptable(target: string) {
    var clean := Clean(Slashed(target));
    ':' !in target && clean != "." && !IsAbs(clean) && !HasPrefix(clean, "..")
  }

  /** Exactly what `safeJoin` does, for every base and target: it refuses every target below a base that cleans to
      "/" or ".", and otherwise accepts the acceptable targets and appends their cleaned form to the cleaned base. */
  lemma SafeJoinExactly(base: string, target: string)
    ensures SafeJoin(base, target) ==
            if Acceptable(target) && Clean(base) != "/" && Clean(base) != "."
            then Some(Clean(base) + "/" + Clean(Slashed(target))) else None
  {
    var slashed := Slashed(target);
    ColonKept(target);
    var clean := Clean(slashed);
    if ':' !in slashed && !IsAbs(clean) && !HasPrefix(clean, "..") {
      if clean == "." {
        JoinDot(base);
      } else {
        RelativeIsPlain(slashed);
        JoinNames(base, Parts(slashed));
      }
    }
  }

  lemma ColonKept(target: string)
    ensures ':' in Slashed(target) <==> ':' in target
  {
    var slashed := Slashed(target);
    if ':' in target {
      var k :| 0 <= k < |target| && target[k] == ':';
      assert slashed[k] == ':';
    }
    if ':' in slashed {
      var k :| 0 <= k < |slashed| && slashed[k] == ':';
      assert target[k] == ':';
    }
  }

  /** Joining "." adds nothing, so the result cannot start with the base and a slash. */
  lemma JoinDot(base: string)
    ensures PathJoin(base, ".") == Clean(base)
  {
    SplitPlain(".");
    if base != "" {
      SplitConcat(base, ".");
      ResolveConcat(IsAbs(base), [], Split(base), ["."]);
      assert (base + "/" + ".")[0] == base[0];
    }
  }

  /** Joining plain names: below the base unless the base cleans to "/" or ".". */
  lemma JoinNames(base: string, names: seq<string>)
    requires names != [] && AllPlain(names)
    ensures var path, prefix := PathJoin(base, Join(names)), Clean(base) + "/";
            if Clean(base) == "/" || Clean(base) == "." then !HasPrefix(path, prefix)
            else HasPrefix(path, prefix) && path == prefix + Join(names)
  {
    hide Resolve, Split, Plain;
    JoinStartsPlain(names);
    if base == "" {
      CleanOfNames(names);
    } else {
      JoinBelow(base, names);
      RenderBelow(base, names);
      if Clean(base) == "/" {
        assert PathJoin(base, Join(names))[1] == Join(names)[0];
        assert (Clean(base) + "/")[1] == '/';
      }
    }
  }

  lemma CleanOfNames(names: seq<string>)
    requires names != [] && AllPlain(names)
    ensures Clean(Join(names)) == Join(names)
  {
    JoinStartsPlain(names);
    SplitJoin(names);
    ResolvePlain(false, [], names);
    assert [] + names == names;
  }

  lemma RenderBelow(base: string, names: seq<string>)
    requires names != [] && AllPlain(names) && base != ""
    ensures var path := Render(IsAbs(base), Parts(base) + names);
            if Clean(base) == "/" then path == "/" + Join(names)
            else if Clean(base) == "." then path == Join(names)
            else path == Clean(base) + "/" + Join(names)
  {
    hide Resolve, Split, Push, Plain, Join;
    var stack := Parts(base);
    JoinNothing();
    if stack == [] {
      assert stack + names == names;
    } else {
      JoinConcat(stack, names);
      SplitHasNoSlashes(base);
      var ups := ResolveResolves(IsAbs(base), [], Split(base), 0);
      NotADot(stack, ups, IsAbs(base));
      assert IsAbs(base) ==> |Clean(base)| == 1 + |Join(stack)| > 1;
    }
  }

  lemma JoinNothing()
    ensures Join([]) == ""
  {
  }

  lemma NotADot(stack: seq<string>, ups: nat, rooted: bool)
    requires stack != [] && Resolved(rooted, stack, ups)
    ensures Join(stack) != "." && Join(stack) != "" && Join(stack)[0] != '/'
  {
    if ups > 0 {
      assert HasPrefix(Join(stack), stack[0]);
    } else {
      JoinStartsPlain(stack);
    }
  }

  // What "." and ".." mean, by counting.

  /** How much deeper a part leads. */
  function Weight(part: string): int {
    if part == "" || part == "." then 0 else if part == ".." then -1 else 1
  }

  function Depth(parts: seq<string>): int {
    if parts == [] then 0 else Weight(parts[0]) + Depth(parts[1..])
  }

  /** Somewhere along the way there have been more ".." than names. */
  ghost predicate Escapes(parts: seq<string>) {
    exists k | 0 <= k <= |parts| :: Depth(parts[..k]) < 0
  }

  lemma DepthOfPrefix(parts: seq<string>, k: nat)
    requires 0 < k <= |parts|
    ensures Depth(parts[..k]) == Weight(parts[0]) + Depth(parts[1..][..k - 1])
  {
    assert parts[..k][1..] == parts[1..][..k - 1];
  }

  /** Resolving a relative path from `stack` ends with a leading ".." exactly if the names on the stack do not make up
      for the ".." parts everywhere along the way, and otherwise with as many names as are left over. */
  lemma {:induction false} ResolveCounts(stack: seq<string>, parts: seq<string>, ups: nat)
    requires Resolved(false, stack, ups) && NoSlashes(parts)
    ensures var end := Resolve(false, stack, parts);
            if ups > 0 || exists k | 0 <= k <= |parts| :: |stack| + Depth(parts[..k]) < 0
            then end != [] && end[0] == ".."
            else AllPlain(end) && |end| == |stack| + Depth(parts)
    decreases |parts|
  {
    if parts == [] {
      assert parts[..0] == [];
    } else {
      var next := Push(false, stack, parts[0]);
      var up := parts[0] == ".." && (stack == [] || stack[|stack| - 1] == "..");
      var ups' := if up then ups + 1 else ups;
      assert Resolved(false, next, ups');
      ResolveCounts(next, parts[1..], ups');
      if ups == 0 {
        assert parts[..0] == [] && parts[1..][..0] == [];
        assert up ==> Depth(parts[..1]) < 0 by { DepthOfPrefix(parts, 1); }
        assert !up ==> |next| == |stack| + Weight(parts[0]);
        if !up {
          SameEscapes(|stack|, |next|, parts);
        }
      }
    }
  }

  lemma SameEscapes(before: nat, after: nat, parts: seq<string>)
    requires parts != [] && after == before + Weight(parts[0])
    ensures (exists k | 0 <= k <= |parts| :: before + Depth(parts[..k]) < 0) <==>
            exists k | 0 <= k <= |parts| - 1 :: after + Depth(parts[1..][..k]) < 0
  {
    assert parts[..0] == [];
    forall k | 0 < k <= |parts|
      ensures before + Depth(parts[..k]) == after + Depth(parts[1..][..k - 1])
    {
      DepthOfPrefix(parts, k);
    }
    if k :| 0 <= k <= |parts| - 1 && after + Depth(parts[1..][..k]) < 0 {
      assert before + Depth(parts[..k + 1]) < 0;
    }
  }

  /** A target with more ".." than names somewhere along the way is refused below every base. */
  lemma EscapingIsRefused(base: string, target: string)
    requires Escapes(Split(Slashed(target)))
    ensures SafeJoin(base, target).None?
  {
    hide Resolve, Split, Depth, PathJoin;
    var slashed := Slashed(target);
    if slashed == "" {
      NothingEscapesEmpty();
    } else if !IsAbs(slashed) {
      SplitHasNoSlashes(slashed);
      ResolveCounts([], Split(slashed), 0);
      UpFirst(slashed);
    }
  }

  lemma NothingEscapesEmpty()
    ensures !Escapes(Split(""))
  {
    assert [""][..0] == [] && [""][..1] == [""];
  }

  lemma UpFirst(path: string)
    requires path != "" && !IsAbs(path) && Parts(path) != [] && Parts(path)[0] == ".."
    ensures HasPrefix(Clean(path), "..")
  {
    hide Resolve, Split;
    assert HasPrefix(Join(Parts(path)), "..");
  }

  /** In particular the parent itself and everything reached through it. */
  lemma ParentIsRefused(base: string, rest: string)
    ensures SafeJoin(base, "..").None? && SafeJoin(base, "../" + rest).None?
  {
    SplitPlain("..");
    SplitConcat("..", Slashed(rest));
    var up := ".." + "/" + Slashed(rest);
    assert Slashed("../" + rest) == up && Slashed("..") == "..";
    assert Split(up)[..1] == [".."] && [".."][..1] == [".."];
    assert Depth([".."]) == -1 by { assert [".."][1..] == []; }
    EscapingIsRefused(base, "..");
    EscapingIsRefused(base, "../" + rest);
  }

  function FirstName(path: string): string {
    if Parts(path) == [] then "" else Parts(path)[0]
  }

  /** The whole condition on the target's text: relative, no colon, never more ".." than names, some name left over,
      and the first name left over does not itself begin with two dots. */
  lemma AcceptedIff(base: string, target: string)
    requires Clean(base) != "/" && Clean(base) != "."
    ensures var slashed := Slashed(target);
            SafeJoin(base, target).Some? <==>
            ':' !in target && !IsAbs(slashed) && !Escapes(Split(slashed)) && Depth(Split(slashed)) > 0
            && !HasPrefix(FirstName(slashed), "..")
  {
    hide Resolve, Split, Depth, Escapes, PathJoin;
    var slashed := Slashed(target);
    SafeJoinExactly(base, target);
    if slashed == "" {
      EmptyTarget();
    } else if !IsAbs(slashed) {
      SplitHasNoSlashes(slashed);
      CountsOf(slashed);
      if !Escapes(Split(slashed)) {
        FirstNameShows(slashed);
      } else {
        UpFirst(slashed);
      }
    }
  }

  lemma CountsOf(path: string)
    requires !IsAbs(path)
    ensures if Escapes(Split(path)) then Parts(path) != [] && Parts(path)[0] == ".."
            else AllPlain(Parts(path)) && |Parts(path)| == Depth(Split(path))
  {
    hide Resolve, Split, Depth;
    SplitHasNoSlashes(path);
    ResolveCounts([], Split(path), 0);
  }

  lemma EmptyTarget()
    ensures Depth(Split("")) == 0 && Clean("") == "."
  {
    assert [""][1..] == [];
  }

  lemma FirstNameShows(path: string)
    requires path != "" && !IsAbs(path) && AllPlain(Parts(path))
    ensures Parts(path) == [] <==> Clean(path) == "."
    ensures Parts(path) != [] ==> (HasPrefix(Clean(path), "..") <==> HasPrefix(Parts(path)[0], ".."))
    ensures !IsAbs(Clean(path))
  {
    hide Resolve, Split;
    var names := Parts(path);
    if names != [] {
      JoinStartsPlain(names);
      var first := names[0];
      if |names| > 1 {
        assert Join(names) == first + "/" + Join(names[1..]);
        assert Join(names)[|first|] == '/' && first != "";
        assert |first| > 1 ==> Join(names)[1] == first[1];
      }
    }
  }

  // Cleaning as rewriting.

  /** A name and the ".." after it cancel. */
  lemma CleanCancels(a: string, n: string, b: string)
    requires Plain(n)
    ensures Clean(a + "/" + n + "/../" + b) == Clean(a + "/" + b)
  {
    hide Clean, Split, Render;
    var head, tail := Split(a), Split(b);
    var s := Resolve(IsAbs(a + "/"), [], head);
    SplitPlain(n);
    SplitPlain("..");
    SplitConcat("..", b);
    SplitConcat(n, ".." + "/" + b);
    SplitConcat(a, n + "/" + (".." + "/" + b));
    SplitConcat(a, b);
    assert a + "/" + n + "/../" + b == a + "/" + (n + "/" + (".." + "/" + b));
    ResolveConcat(IsAbs(a + "/"), [], head, [n] + ([".."] + tail));
    ResolveConcat(IsAbs(a + "/"), [], head, tail);
    CancelStep(IsAbs(a + "/"), s, n, tail);
    SameClean(a, n + "/" + (".." + "/" + b), b);
  }

  lemma CancelStep(rooted: bool, stack: seq<string>, n: string, tail: seq<string>)
    requires Plain(n)
    ensures Resolve(rooted, stack, [n] + ([".."] + tail)) == Resolve(rooted, stack, tail)
  {
    var parts := [n] + ([".."] + tail);
    assert parts[0] == n && parts[1..] == [".."] + tail && ([".."] + tail)[1..] == tail;
    assert (stack + [n])[..|stack|] == stack;
  }

  /** Two paths with the same beginning that resolve alike clean alike. */
  lemma SameClean(a: string, x: string, y: string)
    requires Resolve(IsAbs(a + "/"), [], Split(a + "/" + x)) == Resolve(IsAbs(a + "/"), [], Split(a + "/" + y))
    ensures Clean(a + "/" + x) == Clean(a + "/" + y)
  {
    hide Resolve, Split;
    assert (a + "/" + x)[0] == (a + "/")[0] && (a + "/" + y)[0] == (a + "/")[0];
    assert IsAbs(a + "/" + x) == IsAbs(a + "/") == IsAbs(a + "/" + y);
  }

  /** "." and empty parts mean nothing. */
  lemma CleanSkips(a: string, b: string)
    ensures Clean(a + "/./" + b) == Clean(a + "/" + b) && Clean(a + "//" + b) == Clean(a + "/" + b)
  {
    hide Clean, Split, Render;
    var rooted, head, tail := IsAbs(a + "/"), Split(a), Split(b);
    SplitPlain(".");
    SplitConcat(".", b);
    SplitConcat("", b);
    assert Split("") == [""] by { SplitPlain(""); }
    SplitConcat(a, "." + "/" + b);
    SplitConcat(a, "" + "/" + b);
    SplitConcat(a, b);
    assert a + "/./" + b == a + "/" + ("." + "/" + b) && a + "//" + b == a + "/" + ("" + "/" + b);
    ResolveConcat(rooted, [], head, ["."] + tail);
    ResolveConcat(rooted, [], head, [""] + tail);
    ResolveConcat(rooted, [], head, tail);
    assert (["."] + tail)[1..] == tail && ([""] + tail)[1..] == tail;
    SameClean(a, "." + "/" + b, b);
    SameClean(a, "" + "/" + b, b);
  }

  /** The root is its own parent; on a relative path a leading ".." stays. */
  lemma CleanUps(names: seq<string>)
    requires names != [] && AllPlain(names)
    ensures Clean("/../" + Join(names)) == "/" + Join(names)
    ensures Clean("../" + Join(names)) == "../" + Join(names)
  {
    hide Resolve, Split, Join;
    var rest := Join(names);
    SplitJoin(names);
    SplitPlain("..");
    SplitPlain("");
    SplitConcat("..", rest);
    SplitConcat("", ".." + "/" + rest);
    assert "/../" + rest == "" + "/" + (".." + "/" + rest) && "../" + rest == ".." + "/" + rest;
    UpSteps(names);
    var path := "../" + rest;
    assert path[0] == '.' && Split(path) == [".."] + names && Parts(path) == [".."] + names;
    assert Join([".."] + names) == ".." + "/" + Join(names) by { JoinUp(names); }
  }

  lemma UpSteps(names: seq<string>)
    requires AllPlain(names)
    ensures Resolve(true, [], [""] + ([".."] + names)) == names
    ensures Resolve(false, [], [".."] + names) == [".."] + names
  {
    assert ([""] + ([".."] + names))[1..] == [".."] + names && ([".."] + names)[1..] == names;
    ResolvePlain(true, [], names);
    ResolvePlain(false, [".."], names);
    assert [] + names == names;
    assert Push(true, [], "") == [] && Push(true, [], "..") == [] && Push(false, [], "..") == [".."];
    assert ([".."] + names)[0] == ".." && ([""] + ([".."] + names))[0] == "";
  }

  lemma JoinUp(names: seq<string>)
    requires names != []
    ensures Join([".."] + names) == ".." + "/" + Join(names)
  {
    assert ([".."] + names)[1..] == names;
  }

  /** Containment: every accepted path is the cleaned base followed by one or more plain names. */
  lemma AcceptedStaysBelow(base: string, target: string) returns (names: seq<string>)
    requires SafeJoin(base, target).Some?
    ensures names != [] && AllPlain(names)
    ensures SafeJoin(base, target).value == Clean(base) + "/" + Join(names)
  {
    SafeJoinExactly(base, target);
    RelativeIsPlain(Slashed(target));
    names := Parts(Slashed(target));
  }

  ghost predicate Without(parts: seq<string>, c: char) {
    forall k | 0 <= k < |parts| :: c !in parts[k]
  }

  lemma {:induction false} SplitWithout(s: string, c: char)
    requires c !in s
    ensures Without(Split(s), c)
  {
    if s != "" {
      assert forall x | x in s[1..] :: x in s;
      SplitWithout(s[1..], c);
    }
  }

  lemma {:induction false} ResolveWithout(rooted: bool, stack: seq<string>, parts: seq<string>, c: char)
    requires Without(stack, c) && Without(parts, c) && c != '.'
    ensures Without(Resolve(rooted, stack, parts), c)
    decreases |parts|
  {
    if parts != [] {
      ResolveWithout(rooted, Push(rooted, stack, parts[0]), parts[1..], c);
    }
  }

  lemma {:induction false} JoinWithout(parts: seq<string>, c: char)
    requires Without(parts, c) && c != '/'
    ensures c !in Join(parts)
  {
    if |parts| > 1 {
      JoinWithout(parts[1..], c);
    }
  }

  /** Cleaning brings in no characters of its own but dots and slashes. */
  lemma CleanWithout(path: string, c: char)
    requires c !in path && c != '.' && c != '/'
    ensures c !in Clean(path)
  {
    SplitWithout(path, c);
    ResolveWithout(IsAbs(path), [], Split(path), c);
    JoinWithout(Parts(path), c);
  }

  /** How many leading names two paths share. */
  function Shared(a: seq<string>, b: seq<string>): (k: nat)
    ensures k <= |a| && k <= |b|
  {
    if a == [] || b == [] || a[0] != b[0] then 0 else 1 + Shared(a[1..], b[1..])
  }

  /** `filepath.Rel`: up from the base to what it shares with the target, and down again. It fails if only one of the
      two is rooted, or if it would have to go up past a ".." of the base. */
  function Rel(base: string, target: string): Option<string> {
    var b, t := Parts(base), Parts(target);
    var k := Shared(b, t);
    if IsAbs(base) != IsAbs(target) || (k < |b| && b[k] == "..") then None
    else
      var parts := seq(|b| - k, _ => "..") + t[k..];
      Some(if parts == [] then "." else Join(parts))
  }

  lemma {:induction false} SharedWithLonger(a: seq<string>, b: seq<string>)
    ensures Shared(a, a + b) == |a|
  {
    if a != [] {
      assert (a + b)[1..] == a[1..] + b;
      SharedWithLonger(a[1..], b);
    }
  }

  /** The path of a walked file relative to the root is its names joined with slashes. */
  lemma RelOfWalked(root: string, names: seq<string>)
    requires root != "" && names != [] && AllPlain(names)
    ensures Rel(root, root + "/" + Join(names)) == Some(Join(names))
  {
    hide Resolve, Split, Plain, Join;
    PartsBelow(root, names);
    var b := Parts(root);
    SharedWithLonger(b, names);
    assert seq(0, _ => "..") + (b + names)[|b|..] == names;
  }

  /** The listing/joining round trip. Walking a clean root lists a file by its path relative to the root; joining that
      listed path to the root is the walked file again if and only if the path has no ':' or backslash and does not
      start with ".." (a file called "..notes" is listed but refused). */
  lemma ListedPathJoinsBack(root: string, names: seq<string>)
    requires Clean(root) == root && root != "/" && root != "."
    requires names != [] && AllPlain(names)
    ensures var walked := root + "/" + Join(names);
            Rel(root, walked).Some?
            && var r := Rel(root, walked).value;
            SafeJoin(root, r) == Some(walked) <==> ':' !in r && '\\' !in r && !HasPrefix(r, "..")
  {
    hide Resolve, Split, Plain, Join, Rel;
    var r := Join(names);
    RelOfWalked(root, names);
    SafeJoinExactly(root, r);
    JoinStartsPlain(names);
    if '\\' in r {
      NoBackslash(r);
      CleanWithout(Slashed(r), '\\');
      SamePrefix(root + "/", Clean(Slashed(r)), r);
    } else {
      assert Slashed(r) == r;
      CleanOfNames(names);
    }
  }

  lemma SamePrefix(prefix: string, a: string, b: string)
    ensures prefix + a == prefix + b <==> a == b
  {
    assert (prefix + a)[|prefix|..] == a && (prefix + b)[|prefix|..] == b;
  }

  lemma NoBackslash(s: string)
    ensures '\\' !in Slashed(s)
  {
  }

  /** A target that means the base itself, such as the "." in the API documentation's example, is refused. */
  lemma BaseItselfIsRefused(base: string, target: string)
    requires Clean(Slashed(target)) == "."
    ensures SafeJoin(base, target).None?
  {
    SafeJoinExactly(base, target);
  }

  // Writing inline files.

  datatype InlineFile = InlineFile(path: string, content: string, remove: bool)

  predicate AllAccepted(base: string, files: seq<InlineFile>) {
    forall k | 0 <= k < |files| :: files[k].path != "" && SafeJoin(base, files[k].path).Some?
  }

  /** The disk after all files have been written or removed in order. */
  function Written(base: string, disk: map<string, string>, files: seq<InlineFile>): map<string, string>
    requires AllAccepted(base, files)
  {
    if files == [] then disk
    else
      var last := files[|files| - 1];
      var before := Written(base, disk, files[..|files| - 1]);
      var path := SafeJoin(base, last.path).value;
      if last.remove then before - {path} else before[path := last.content]
  }

  ghost predicate Below(base: string, path: string) {
    exists names :: names != [] && AllPlain(names) && path == Clean(base) + "/" + Join(names)
  }

  ghost predicate SameAt(a: map<string, string>, b: map<string, string>, path: string) {
    (path in a <==> path in b) && (path in a ==> a[path] == b[path])
  }

  class Disk {
    var files: map<string, string>

    /** `works(k)` says whether the disk operations for file `k` succeed. */
    method WriteInlineFiles(base: string, inline: seq<InlineFile>, works: nat -> bool)
      returns (ok: bool, ghost done: nat)
      modifies this
      ensures done <= |inline| && AllAccepted(base, inline[..done])
      ensures files == Written(base, old(files), inline[..done])
      ensures ok <==> AllAccepted(base, inline) && forall k: nat | k < |inline| :: works(k)
      ensures ok ==> done == |inline|
    {
      hide SafeJoin;
      done := 0;
      for n := 0 to |inline|
        invariant done == n && AllAccepted(base, inline[..n])
        invariant files == Written(base, old(files), inline[..n])
        invariant forall k: nat | k < n :: works(k)
      {
        var file := inline[n];
        if file.path == "" {
          return false, done;
        }
        var joined := SafeJoin(base, file.path);
        if joined.None? || !works(n) {
          return false, done;
        }
        assert inline[..n + 1][..n] == inline[..n];
        files := if file.remove then files - {joined.value} else files[joined.value := file.content];
        done := n + 1;
      }
      ok := true;
      assert inline[..|inline|] == inline;
    }
  }

  /** Writing inline files, to the end or not, touches nothing outside the base. */
  lemma {:induction false} WritesStayBelow(base: string, disk: map<string, string>, files: seq<InlineFile>,
                                           path: string)
    requires AllAccepted(base, files) && !SameAt(disk, Written(base, disk, files), path)
    ensures Below(base, path)
  {
    hide SafeJoin, Clean;
    var last := files[|files| - 1];
    var target := SafeJoin(base, last.path).value;
    if path == target {
      var names := AcceptedStaysBelow(base, last.path);
    } else {
      WritesStayBelow(base, disk, files[..|files| - 1], path);
    }
  }

  /** The last file written to a path decides what is there. */
  lemma {:induction false} LastWriteWins(base: string, disk: map<string, string>, files: seq<InlineFile>, k: nat)
    requires AllAccepted(base, files) && k < |files|
    requires forall j | k < j < |files| :: SafeJoin(base, files[j].path) != SafeJoin(base, files[k].path)
    ensures var path, after := SafeJoin(base, files[k].path).value, Written(base, disk, files);
            if files[k].remove then path !in after else path in after && after[path] == files[k].content
  {
    hide SafeJoin;
    if k < |files| - 1 {
      LastWriteWins(base, disk, files[..|files| - 1], k);
    }
  }
}
