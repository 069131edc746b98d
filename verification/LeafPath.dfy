/** Leaf paths: dotted segments, templates and segment-aware prefixes
    (src/lumencast/protocol/leaf_path.py). */
module LeafPath {
  import opened Wrappers
  import opened Texts

  /** Python's str.isalpha and str.isdigit, left abstract except that the three
      characters with a meaning of their own are neither. */
  datatype CharClass = CharClass(alpha: char -> bool, digit: char -> bool) {
    predicate Valid() {
      forall c :: c in ".{}" ==> !alpha(c) && !digit(c)
    }
  }

  datatype PathError =
    | EmptyPath
    | EmptySegment(index: nat)
    | EmptyScope(index: nat)
    | InvalidScope(index: nat)
    | InvalidSegment(index: nat)
    | Unterminated
    | UnknownScope(name: string)

  // ---------------------------------------------------------------- splitting

  /** Python's s.split("."). */
  function Split(s: string): (segs: seq<string>)
    ensures segs != []
    decreases |s|
  {
    var k := IndexFrom(s, '.', 0);
    if k == |s| then [s] else [s[..k]] + Split(s[k+1..])
  }

  /** Python's ".".join(segs). */
  function Join(segs: seq<string>): string
  {
    if segs == [] then "" else if |segs| == 1 then segs[0]
    else segs[0] + "." + Join(segs[1..])
  }

  lemma {:induction false} JoinSplit(s: string)
    ensures Join(Split(s)) == s
    decreases |s|
  {
    var k := IndexFrom(s, '.', 0);
    if k < |s| {
      JoinSplit(s[k+1..]);
      assert ([s[..k]] + Split(s[k+1..]))[1..] == Split(s[k+1..]);
      assert s == s[..k] + "." + s[k+1..];
    }
  }

  lemma {:induction false} SplitFirst(s: string, head: string, tail: string)
    requires s == head + "." + tail && '.' !in head
    ensures Split(s) == [head] + Split(tail)
  {
    assert s[0..|head|] == head;
    IndexFromUnique(s, '.', 0, |head|);
    assert s[..|head|] == head && s[|head|+1..] == tail;
  }

  lemma {:induction false} CutAt(a: string, k: nat)
    requires k < |a| && a[k] == '.' && '.' !in a[0..k]
    ensures a == a[..k] + "." + a[k+1..] && '.' !in a[..k]
  {
    assert a[0..k] == a[..k];
  }

  lemma {:induction false} DotsJoin(a: string, b: string, c: string)
    ensures a + "." + b + "." + c == a + "." + (b + "." + c)
  {
  }

  /** Splitting is a homomorphism for joining with a dot. */
  lemma {:induction false} SplitDotted(a: string, b: string)
    ensures Split(a + "." + b) == Split(a) + Split(b)
    decreases |a|
  {
    SplitJoined(a, b, a + "." + b);
  }

  lemma {:induction false} SplitJoined(a: string, b: string, s: string)
    requires s == a + "." + b
    ensures Split(s) == Split(a) + Split(b)
    decreases |a|
  {
    var k := IndexFrom(a, '.', 0);
    if k == |a| {
      assert a[0..k] == a;
      SplitFirst(s, a, b);
      SplitPlain(a);
    } else {
      var head, tail := a[..k], a[k+1..];
      var t := tail + "." + b;
      CutAt(a, k);
      SplitJoined(tail, b, t);
      SplitFirst(a, head, tail);
      DotsJoin(head, tail, b);
      SplitFirst(s, head, t);
      Prepended(head, Split(tail), Split(b));
    }
  }

  lemma {:induction false} Prepended(x: string, a: seq<string>, b: seq<string>)
    ensures [x] + (a + b) == [x] + a + b
  {
  }

  lemma {:induction false} SplitPlain(s: string)
    requires '.' !in s
    ensures Split(s) == [s]
  {
  }

  // --------------------------------------------------------------- has_prefix

  predicate HasPrefix(path: string, prefix: string) {
    path == prefix || prefix + "." <= path
  }

  lemma {:induction false} JoinAppend(a: seq<string>, b: seq<string>)
    requires a != [] && b != []
    ensures Join(a + b) == Join(a) + "." + Join(b)
  {
    if |a| == 1 {
      assert (a + b)[1..] == b;
    } else {
      JoinAppend(a[1..], b);
      assert (a + b)[1..] == a[1..] + b;
    }
  }

  /** The character test is exactly the prefix relation on segment lists. */
  lemma {:induction false} HasPrefixIsSegmentPrefix(path: string, prefix: string)
    ensures HasPrefix(path, prefix) <==> Split(prefix) <= Split(path)
  {
    if prefix + "." <= path {
      var rest := path[|prefix| + 1..];
      assert path == prefix + "." + rest;
      SplitDotted(prefix, rest);
    }
    if Split(prefix) <= Split(path) {
      var tail := Split(path)[|Split(prefix)|..];
      assert Split(path) == Split(prefix) + tail;
      JoinSplit(path);
      JoinSplit(prefix);
      if tail != [] {
        JoinAppend(Split(prefix), tail);
      } else {
        assert Split(path) == Split(prefix);
      }
    }
  }

  lemma {:induction false} HasPrefixTransitive(a: string, b: string, c: string)
    requires HasPrefix(b, a) && HasPrefix(c, b)
    ensures HasPrefix(c, a)
  {
    HasPrefixIsSegmentPrefix(b, a);
    HasPrefixIsSegmentPrefix(c, b);
    HasPrefixIsSegmentPrefix(c, a);
  }

  // --------------------------------------------------------------- validation

  predicate ValidSegment(cc: CharClass, seg: string) {
    forall i :: 0 <= i < |seg| ==> cc.alpha(seg[i]) || seg[i] == '_' || cc.digit(seg[i])
  }

  predicate IsIdentifier(cc: CharClass, s: string) {
    s != [] && forall i :: 0 <= i < |s| ==> cc.alpha(s[i]) || s[i] == '_' || (cc.digit(s[i]) && i > 0)
  }

  predicate IsPlaceholder(seg: string) {
    |seg| >= 2 && seg[0] == '{' && seg[|seg|-1] == '}'
  }

  function PlaceholderName(seg: string): string
    requires IsPlaceholder(seg)
  {
    seg[1..|seg|-1]
  }

  function CheckSegment(cc: CharClass, seg: string, i: nat, allowTemplate: bool): Option<PathError> {
    if seg == "" then Some(EmptySegment(i))
    else if allowTemplate && IsPlaceholder(seg) then
      var inner := PlaceholderName(seg);
      if inner == "" then Some(EmptyScope(i))
      else if !IsIdentifier(cc, inner) then Some(InvalidScope(i))
      else None
    else if !ValidSegment(cc, seg) then Some(InvalidSegment(i))
    else None
  }

  /** The first failing segment of segs[i..], if any. */
  function CheckSegments(cc: CharClass, segs: seq<string>, i: nat, allowTemplate: bool): (r: Option<PathError>)
    requires i <= |segs|
    ensures r.None? <==> forall j :: i <= j < |segs| ==> CheckSegment(cc, segs[j], j, allowTemplate).None?
    decreases |segs| - i
  {
    if i == |segs| then None
    else
      var e := CheckSegment(cc, segs[i], i, allowTemplate);
      if e.Some? then e else CheckSegments(cc, segs, i + 1, allowTemplate)
  }

  /** None when the path is accepted, otherwise the error that is raised. */
  function ValidatePath(cc: CharClass, path: string, allowTemplate: bool): Option<PathError> {
    if path == "" then Some(EmptyPath) else CheckSegments(cc, Split(path), 0, allowTemplate)
  }

  predicate WireSegments(cc: CharClass, segs: seq<string>) {
    forall seg :: seg in segs ==> seg != "" && ValidSegment(cc, seg)
  }

  lemma {:induction false} WirePathSegments(cc: CharClass, path: string)
    ensures ValidatePath(cc, path, false).None? <==> WireSegments(cc, Split(path))
  {
    var segs := Split(path);
    if path == "" { assert segs[0] in segs; return; }
    if ValidatePath(cc, path, false).None? {
      forall seg | seg in segs ensures seg != "" && ValidSegment(cc, seg) {
        var j :| 0 <= j < |segs| && segs[j] == seg;
        assert CheckSegment(cc, segs[j], j, false).None?;
      }
    } else {
      var j :| 0 <= j < |segs| && CheckSegment(cc, segs[j], j, false).Some?;
      assert segs[j] in segs;
    }
  }

  /** Letters, digits and underscores, at least one. */
  predicate Word(cc: CharClass, seg: string) {
    seg != "" && forall c :: c in seg ==> cc.alpha(c) || cc.digit(c) || c == '_'
  }

  /** A name in braces: a word that does not start with a digit. */
  ghost predicate Braced(cc: CharClass, seg: string) {
    exists name: string ::
      && seg == "{" + name + "}" && Word(cc, name)
      && (cc.alpha(name[0]) || name[0] == '_')
  }

  lemma {:induction false} SegmentExact(cc: CharClass, seg: string, i: nat)
    requires cc.Valid()
    ensures CheckSegment(cc, seg, i, false).None? <==> Word(cc, seg)
    ensures CheckSegment(cc, seg, i, true).None? <==> Word(cc, seg) || Braced(cc, seg)
  {
    assert ValidSegment(cc, seg) <==> forall c :: c in seg ==> cc.alpha(c) || cc.digit(c) || c == '_';
    if IsPlaceholder(seg) {
      var name := PlaceholderName(seg);
      assert seg == "{" + name + "}";
      assert seg[0] in seg && !Word(cc, seg);
      assert IsIdentifier(cc, name) <==> Word(cc, name) && (cc.alpha(name[0]) || name[0] == '_') by {
        IdentifierExact(cc, name);
      }
      if Braced(cc, seg) {
        var n: string :| seg == "{" + n + "}" && Word(cc, n) && (cc.alpha(n[0]) || n[0] == '_');
        assert n == name;
      }
    } else if Braced(cc, seg) {
      assert false;
    }
  }

  lemma {:induction false} IdentifierExact(cc: CharClass, name: string)
    ensures IsIdentifier(cc, name) <==> Word(cc, name) && (cc.alpha(name[0]) || name[0] == '_')
  {
    if IsIdentifier(cc, name) {
      forall c | c in name ensures cc.alpha(c) || cc.digit(c) || c == '_' {
        var k :| 0 <= k < |name| && name[k] == c;
      }
    }
  }

  /** Which paths are accepted: dot-separated words, and in templates names in braces too. */
  lemma {:induction false} ValidatePathExact(cc: CharClass, path: string)
    requires cc.Valid()
    ensures ValidatePath(cc, path, false).None? <==> forall seg :: seg in Split(path) ==> Word(cc, seg)
    ensures ValidatePath(cc, path, true).None? <==>
      forall seg :: seg in Split(path) ==> Word(cc, seg) || Braced(cc, seg)
  {
    var segs := Split(path);
    if path == "" {
      assert segs[0] in segs && segs[0] == "";
      SegmentExact(cc, "", 0);
      return;
    }
    forall j | 0 <= j < |segs|
      ensures CheckSegment(cc, segs[j], j, false).None? <==> Word(cc, segs[j])
      ensures CheckSegment(cc, segs[j], j, true).None? <==> Word(cc, segs[j]) || Braced(cc, segs[j])
    {
      SegmentExact(cc, segs[j], j);
    }
  }

  /** The error raised is about the first segment that fails, and says what is wrong with it. */
  lemma {:induction false} PathErrorExact(cc: CharClass, path: string, allowTemplate: bool) returns (i: nat)
    requires path != "" && ValidatePath(cc, path, allowTemplate).Some?
    ensures i < |Split(path)| && forall j :: 0 <= j < i ==> CheckSegment(cc, Split(path)[j], j, allowTemplate).None?
    ensures var e, seg := ValidatePath(cc, path, allowTemplate).value, Split(path)[i];
      && e in {EmptySegment(i), EmptyScope(i), InvalidScope(i), InvalidSegment(i)}
      && (e == EmptySegment(i) <==> seg == "")
      && (e == EmptyScope(i) <==> allowTemplate && seg == "{}")
      && (e == InvalidScope(i) <==>
            allowTemplate && IsPlaceholder(seg) && seg != "{}" && !IsIdentifier(cc, PlaceholderName(seg)))
  {
    i := FirstBad(cc, Split(path), 0, allowTemplate);
  }

  lemma {:induction false} FirstBad(cc: CharClass, segs: seq<string>, k: nat, allowTemplate: bool) returns (i: nat)
    requires k <= |segs| && CheckSegments(cc, segs, k, allowTemplate).Some?
    ensures k <= i < |segs| && forall j :: k <= j < i ==> CheckSegment(cc, segs[j], j, allowTemplate).None?
    ensures CheckSegment(cc, segs[i], i, allowTemplate) == CheckSegments(cc, segs, k, allowTemplate)
    decreases |segs| - k
  {
    if CheckSegment(cc, segs[k], k, allowTemplate).Some? {
      i := k;
    } else {
      i := FirstBad(cc, segs, k + 1, allowTemplate);
    }
  }

  // ------------------------------------------------------------- substitution

  type Scope = map<string, string>

  function Prepend(s: string, r: Result<string, PathError>): Result<string, PathError> {
    if r.Err? then r else Ok(s + r.value)
  }

  lemma {:induction false} PrependTwice(a: string, b: string, r: Result<string, PathError>)
    ensures Prepend(a, Prepend(b, r)) == Prepend(a + b, r)
  {
    if r.Ok? { assert a + (b + r.value) == (a + b) + r.value; }
  }

  /** What the scanning loop produces from position i on, before validation. */
  function Scan(path: string, i: nat, scope: Scope): Result<string, PathError>
    requires i <= |path|
    decreases |path| - i
  {
    if i == |path| then Ok("")
    else if path[i] != '{' then Prepend([path[i]], Scan(path, i + 1, scope))
    else
      var end := IndexFrom(path, '}', i + 1);
      if end == |path| then Err(Unterminated)
      else if path[i+1..end] !in scope then Err(UnknownScope(path[i+1..end]))
      else Prepend(scope[path[i+1..end]], Scan(path, end + 1, scope))
  }

  /** The whole of `substitute`, as a function of its arguments. */
  function Substituted(cc: CharClass, path: string, scope: Scope): Result<string, PathError> {
    if '{' !in path then
      var e := ValidatePath(cc, path, false);
      if e.Some? then Err(e.value) else Ok(path)
    else
      var scanned := Scan(path, 0, scope);
      if scanned.Err? then scanned
      else
        var e := ValidatePath(cc, scanned.value, false);
        if e.Some? then Err(e.value) else scanned
  }

  method Substitute(cc: CharClass, path: string, scope: Scope) returns (r: Result<string, PathError>)
    ensures r == Substituted(cc, path, scope)
  {
    if '{' !in path {
      var e := ValidatePath(cc, path, false);
      if e.Some? { return Err(e.value); }
      return Ok(path);
    }
    var out: string := "";
    var i := 0;
    assert Prepend("", Scan(path, 0, scope)) == Scan(path, 0, scope) by {
      var r0 := Scan(path, 0, scope);
      if r0.Ok? { assert "" + r0.value == r0.value; }
    }
    while i < |path|
      invariant 0 <= i <= |path|
      invariant Scan(path, 0, scope) == Prepend(out, Scan(path, i, scope))
    {
      if path[i] != '{' {
        PrependTwice(out, [path[i]], Scan(path, i + 1, scope));
        out := out + [path[i]];
        i := i + 1;
      } else {
        var end := IndexFrom(path, '}', i + 1);
        if end == |path| { return Err(Unterminated); }
        var name := path[i+1..end];
        if name !in scope { return Err(UnknownScope(name)); }
        PrependTwice(out, scope[name], Scan(path, end + 1, scope));
        out := out + scope[name];
        i := end + 1;
      }
    }
    assert out + "" == out;
    var e := ValidatePath(cc, out, false);
    if e.Some? { return Err(e.value); }
    return Ok(out);
  }

  /** Segment semantics: a whole-segment placeholder stands for its binding. */
  function ExpandSegment(seg: string, scope: Scope): string {
    if IsPlaceholder(seg) && PlaceholderName(seg) in scope then scope[PlaceholderName(seg)] else seg
  }

  function Expand(segs: seq<string>, scope: Scope): (r: seq<string>)
    ensures |r| == |segs|
  {
    if segs == [] then [] else [ExpandSegment(segs[0], scope)] + Expand(segs[1..], scope)
  }

  /** One segment of an accepted template. */
  predicate TemplateSegment(cc: CharClass, seg: string) {
    CheckSegment(cc, seg, 0, true).None?
  }

  predicate Bound(seg: string, scope: Scope) {
    IsPlaceholder(seg) ==> PlaceholderName(seg) in scope
  }

  /** Scanning past a stretch without braces copies it. */
  lemma {:induction false} ScanPlain(path: string, i: nat, j: nat, scope: Scope)
    requires i <= j <= |path| && '{' !in path[i..j]
    ensures Scan(path, i, scope) == Prepend(path[i..j], Scan(path, j, scope))
    decreases j - i
  {
    if i < j {
      assert path[i] == path[i..j][0];
      assert path[i+1..j] == path[i..j][1..];
      ScanPlain(path, i + 1, j, scope);
      PrependTwice([path[i]], path[i+1..j], Scan(path, j, scope));
      assert [path[i]] + path[i+1..j] == path[i..j];
    } else {
      var rest := Scan(path, j, scope);
      if rest.Ok? { assert path[i..j] + rest.value == rest.value; }
    }
  }

  /** Scanning past one segment emits its expansion, or fails on its unknown name. */
  lemma {:induction false} ScanSegment(cc: CharClass, path: string, i: nat, j: nat, scope: Scope)
    requires cc.Valid() && i <= j <= |path| && TemplateSegment(cc, path[i..j])
    ensures var seg := path[i..j];
      Scan(path, i, scope) ==
        if Bound(seg, scope) then Prepend(ExpandSegment(seg, scope), Scan(path, j, scope))
        else Err(UnknownScope(PlaceholderName(seg)))
  {
    var seg := path[i..j];
    if IsPlaceholder(seg) {
      var name := PlaceholderName(seg);
      SliceOfSlice(path, i, j, 1, |seg| - 1);
      assert forall k :: 0 <= k < |name| ==> name[k] != '}';
      assert path[j-1] == seg[|seg|-1];
      IndexFromUnique(path, '}', i + 1, j - 1);
      assert path[i] == seg[0];
    } else {
      assert forall k :: 0 <= k < |seg| ==> seg[k] != '{';
      ScanPlain(path, i, j, scope);
    }
  }

  /** Scanning to the next placeholder: what stands before it is copied; without a closing brace
      or a value for its name it fails, and otherwise the value is inserted and scanning goes on
      behind it. */
  lemma {:induction false} ScanExact(path: string, i: nat, j: nat, end: nat, scope: Scope)
    requires i <= j < |path| && '{' !in path[i..j] && path[j] == '{' && j < end <= |path|
    requires '}' !in path[j+1..end] && (end < |path| ==> path[end] == '}')
    ensures end == |path| ==> Scan(path, i, scope) == Err(Unterminated)
    ensures end < |path| && path[j+1..end] !in scope ==> Scan(path, i, scope) == Err(UnknownScope(path[j+1..end]))
    ensures end < |path| && path[j+1..end] in scope ==>
      Scan(path, i, scope) == Prepend(path[i..j] + scope[path[j+1..end]], Scan(path, end + 1, scope))
  {
    ScanPlain(path, i, j, scope);
    assert forall k :: j < k < end ==> path[k] == path[j+1..end][k-j-1];
    if end < |path| {
      IndexFromUnique(path, '}', j + 1, end);
      if path[j+1..end] in scope {
        PrependTwice(path[i..j], scope[path[j+1..end]], Scan(path, end + 1, scope));
      }
    }
  }

  /** Without a placeholder the rest is copied. */
  lemma {:induction false} ScanRest(path: string, i: nat, scope: Scope)
    requires i <= |path| && '{' !in path[i..]
    ensures Scan(path, i, scope) == Ok(path[i..])
  {
    ScanPlain(path, i, |path|, scope);
    assert path[i..|path|] == path[i..];
    assert path[i..] + "" == path[i..];
  }

  lemma {:induction false} JoinHead(path: string, i: nat, segs: seq<string>)
    requires i <= |path| && segs != [] && path[i..] == Join(segs)
    ensures i + |segs[0]| <= |path| && path[i..i+|segs[0]|] == segs[0]
    ensures |segs| == 1 ==> i + |segs[0]| == |path|
    ensures |segs| > 1 ==> var j := i + |segs[0]|;
              j < |path| && path[j] == '.' && path[j+1..] == Join(segs[1..])
  {
    var j := i + |segs[0]|;
    assert path[i..][..|segs[0]|] == segs[0];
    if |segs| > 1 {
      assert path[i..][|segs[0]|] == '.';
      assert path[i..][|segs[0]| + 1..] == Join(segs[1..]);
    }
  }

  lemma {:induction false} JoinExpanded(segs: seq<string>, scope: Scope)
    requires |segs| > 1
    ensures Join(Expand(segs, scope)) ==
      ExpandSegment(segs[0], scope) + (['.'] + Join(Expand(segs[1..], scope)))
  {
    assert Expand(segs, scope)[1..] == Expand(segs[1..], scope);
  }

  /** A dot between two segments is copied. */
  lemma {:induction false} ScanDot(path: string, j: nat, tail: string, scope: Scope)
    requires j < |path| && path[j] == '.' && Scan(path, j + 1, scope) == Ok(tail)
    ensures Scan(path, j, scope) == Ok(['.'] + tail)
  {
  }

  /** The scan of a whole template: its expansion, or the first name without a binding. */
  lemma {:induction false} ScanSegments(cc: CharClass, path: string, i: nat, segs: seq<string>, scope: Scope)
    requires cc.Valid() && i <= |path| && segs != [] && path[i..] == Join(segs)
    requires forall seg :: seg in segs ==> TemplateSegment(cc, seg)
    ensures if forall seg :: seg in segs ==> Bound(seg, scope)
            then Scan(path, i, scope) == Ok(Join(Expand(segs, scope)))
            else Scan(path, i, scope).Err? && Scan(path, i, scope).error.UnknownScope?
    decreases |segs|
  {
    var seg, rest, j := segs[0], segs[1..], i + |segs[0]|;
    JoinHead(path, i, segs);
    ScanSegment(cc, path, i, j, scope);
    assert forall x :: x in segs <==> x == seg || x in rest;
    if !Bound(seg, scope) { return; }
    var head := ExpandSegment(seg, scope);
    if rest == [] {
      assert head + "" == head;
    } else {
      ScanSegments(cc, path, j + 1, rest, scope);
      if forall x :: x in rest ==> Bound(x, scope) {
        ScanDot(path, j, Join(Expand(rest, scope)), scope);
        JoinExpanded(segs, scope);
      } else {
        assert Scan(path, j, scope) == Scan(path, j + 1, scope);
      }
    }
  }

  lemma {:induction false} ExpandedIsWire(cc: CharClass, segs: seq<string>, scope: Scope)
    requires cc.Valid() && segs != []
    requires forall seg :: seg in segs ==> TemplateSegment(cc, seg) && '.' !in seg
    requires forall seg :: seg in segs && IsPlaceholder(seg) ==>
               PlaceholderName(seg) in scope && ValidatePath(cc, scope[PlaceholderName(seg)], false).None?
    ensures WireSegments(cc, Split(Join(Expand(segs, scope))))
    decreases |segs|
  {
    var head := ExpandSegment(segs[0], scope);
    assert WireSegments(cc, Split(head)) by {
      assert TemplateSegment(cc, segs[0]);
      if IsPlaceholder(segs[0]) { WirePathSegments(cc, head); } else { SplitPlain(head); }
    }
    if |segs| == 1 {
      assert Expand(segs, scope) == [head];
    } else {
      ExpandedIsWire(cc, segs[1..], scope);
      assert Expand(segs, scope)[1..] == Expand(segs[1..], scope);
      SplitDotted(head, Join(Expand(segs[1..], scope)));
    }
  }

  lemma {:induction false} SplitHasNoDots(s: string)
    ensures forall seg :: seg in Split(s) ==> '.' !in seg
    decreases |s|
  {
    var k := IndexFrom(s, '.', 0);
    assert s[0..k] == s[..k];
    if k < |s| { SplitHasNoDots(s[k+1..]); } else { assert s[..k] == s; }
  }

  lemma {:induction false} ExpandPlain(segs: seq<string>, scope: Scope)
    requires forall seg :: seg in segs ==> '{' !in seg
    ensures Expand(segs, scope) == segs
  {
    if segs != [] {
      assert segs[0] in segs;
      ExpandPlain(segs[1..], scope);
    }
  }

  lemma {:induction false} SplitKeepsChars(s: string, c: char)
    requires c !in s
    ensures forall seg :: seg in Split(s) ==> c !in seg
    decreases |s|
  {
    var k := IndexFrom(s, '.', 0);
    if k < |s| { SplitKeepsChars(s[k+1..], c); }
  }

  lemma {:induction false} TemplateSegments(cc: CharClass, path: string)
    requires ValidatePath(cc, path, true).None?
    ensures forall seg :: seg in Split(path) ==> TemplateSegment(cc, seg)
  {
    var segs := Split(path);
    forall seg | seg in segs ensures TemplateSegment(cc, seg) {
      var j :| 0 <= j < |segs| && segs[j] == seg;
      assert CheckSegment(cc, segs[j], j, true).None?;
    }
  }

  /** An accepted template is substituted exactly when each of its names is bound and the
      segment-wise expansion is a wire path; that expansion is then the result. */
  lemma {:induction false} SubstituteExact(cc: CharClass, path: string, scope: Scope)
    requires cc.Valid() && ValidatePath(cc, path, true).None?
    ensures var r := Substituted(cc, path, scope);
      var expansion := Join(Expand(Split(path), scope));
      && (r.Ok? <==>
            (forall seg :: seg in Split(path) ==> Bound(seg, scope)) && ValidatePath(cc, expansion, false).None?)
      && (r.Ok? ==> r.value == expansion)
  {
    var segs := Split(path);
    TemplateSegments(cc, path);
    JoinSplit(path);
    if '{' in path {
      assert path[0..] == path;
      ScanSegments(cc, path, 0, segs, scope);
    } else {
      SplitKeepsChars(path, '{');
      ExpandPlain(segs, scope);
      assert forall seg :: seg in segs ==> Bound(seg, scope);
    }
  }

  /** With every name bound to a wire path, substitution never fails. */
  lemma {:induction false} SubstituteSucceeds(cc: CharClass, path: string, scope: Scope)
    requires cc.Valid() && ValidatePath(cc, path, true).None?
    requires forall seg :: seg in Split(path) && IsPlaceholder(seg) ==>
               PlaceholderName(seg) in scope && ValidatePath(cc, scope[PlaceholderName(seg)], false).None?
    ensures Substituted(cc, path, scope) == Ok(Join(Expand(Split(path), scope)))
    ensures ValidatePath(cc, Join(Expand(Split(path), scope)), false).None?
  {
    TemplateSegments(cc, path);
    SplitHasNoDots(path);
    ExpandedIsWire(cc, Split(path), scope);
    WirePathSegments(cc, Join(Expand(Split(path), scope)));
    SubstituteExact(cc, path, scope);
  }
}
