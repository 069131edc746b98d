/** Write authority by role (src/lumencast/server/role.py, and Identity.can_write of
    src/lumencast/server/auth.py). */
module Roles {
  import opened Wrappers
  import opened LeafPath

  datatype Role = Viewer | Operator | Service | Test

  datatype Identity = Identity(subject: string, role: Option<Role>, paths: seq<string>) {
    predicate CanWrite(path: string) {
      role.Some? && RoleCanWrite(role.value, path, paths)
    }
  }

  predicate EndsWith(s: string, suffix: string) {
    |suffix| <= |s| && s[|s|-|suffix|..] == suffix
  }

  predicate PatternMatches(pattern: string, path: string) {
    if pattern == "" then false
    else if pattern == path then true
    else if EndsWith(pattern, ".*") then HasPrefix(path, pattern[..|pattern|-2])
    else if EndsWith(pattern, "*") && EndsWith(pattern[..|pattern|-1], ".") then
      HasPrefix(path, pattern[..|pattern|-2])
    else HasPrefix(path, pattern)
  }

  predicate RoleCanWrite(role: Role, path: string, paths: seq<string>) {
    match role
    case Operator => HasPrefix(path, "__inputs")
    case Service =>
      HasPrefix(path, "__inputs") && (paths == [] || exists p :: p in paths && PatternMatches(p, path))
    case Test => HasPrefix(path, "__test")
    case Viewer => false
  }

  /** The third branch of PatternMatches is never reached after the second. */
  lemma {:induction false} DotStar(pattern: string)
    requires pattern != ""
    ensures EndsWith(pattern, "*") && EndsWith(pattern[..|pattern|-1], ".") ==> EndsWith(pattern, ".*")
  {
    if |pattern| >= 2 {
      assert pattern[|pattern|-2..] == [pattern[|pattern|-2]] + pattern[|pattern|-1..];
    }
  }

  lemma {:induction false} PatternClosed(pattern: string, path: string, child: string)
    requires PatternMatches(pattern, path) && HasPrefix(child, path)
    ensures PatternMatches(pattern, child)
  {
    if pattern == path && EndsWith(pattern, ".*") {
      var root := pattern[..|pattern|-2];
      assert path == root + "." + "*";
      HasPrefixTransitive(root, path, child);
    } else if EndsWith(pattern, ".*") {
      HasPrefixTransitive(pattern[..|pattern|-2], path, child);
    } else {
      DotStar(pattern);
      HasPrefixTransitive(pattern, path, child);
    }
  }

  /** Whoever may write a path may write every path below it. */
  lemma {:induction false} AuthorityClosedUnderDescendants(role: Role, path: string, child: string, paths: seq<string>)
    requires RoleCanWrite(role, path, paths) && HasPrefix(child, path)
    ensures RoleCanWrite(role, child, paths)
  {
    match role
    case Viewer =>
    case Operator => HasPrefixTransitive("__inputs", path, child);
    case Test => HasPrefixTransitive("__test", path, child);
    case Service =>
      HasPrefixTransitive("__inputs", path, child);
      if paths != [] {
        var p :| p in paths && PatternMatches(p, path);
        PatternClosed(p, path, child);
      }
  }

  // ----------------------------------------------------------------- in terms of segments

  lemma {:induction false} NamespaceFirst(path: string, namespace: string)
    requires '.' !in namespace
    ensures HasPrefix(path, namespace) <==> Split(path)[0] == namespace
  {
    HasPrefixIsSegmentPrefix(path, namespace);
    SplitPlain(namespace);
  }

  /** A last segment that is a star stands for any descendant. */
  function Root(segs: seq<string>): seq<string> {
    if |segs| > 1 && segs[|segs|-1] == "*" then segs[..|segs|-1] else segs
  }

  lemma {:induction false} StarSplits(root: string)
    ensures Split(root + "." + "*") == Split(root) + ["*"] && Root(Split(root + "." + "*")) == Split(root)
  {
    SplitDotted(root, "*");
    SplitPlain("*");
  }

  lemma {:induction false} StarJoins(init: seq<string>)
    requires init != []
    ensures Join(init + ["*"]) == Join(init) + "." + "*"
  {
    JoinAppend(init, ["*"]);
  }

  lemma {:induction false} StarLast(segs: seq<string>, pattern: string)
    requires |segs| > 1 && segs[|segs|-1] == "*" && pattern == Join(segs)
    ensures EndsWith(pattern, ".*")
  {
    var init, last := segs[..|segs|-1], segs[|segs|-1];
    assert segs == init + [last];
    StarJoins(init);
    DotStarEnds(Join(init), pattern);
  }

  lemma {:induction false} StarEnds(pattern: string)
    requires var segs := Split(pattern); |segs| > 1 && segs[|segs|-1] == "*"
    ensures EndsWith(pattern, ".*")
  {
    JoinSplit(pattern);
    StarLast(Split(pattern), pattern);
  }

  lemma {:induction false} DotStarEnds(root: string, pattern: string)
    requires pattern == root + "." + "*"
    ensures EndsWith(pattern, ".*") && pattern[..|pattern|-2] == root
  {
  }

  lemma {:induction false} EndsDotStar(pattern: string)
    requires EndsWith(pattern, ".*")
    ensures pattern == pattern[..|pattern|-2] + "." + "*"
  {
  }

  lemma {:induction false} StarSegment(pattern: string)
    ensures EndsWith(pattern, ".*") ==> Root(Split(pattern)) == Split(pattern[..|pattern|-2])
    ensures !EndsWith(pattern, ".*") ==> Root(Split(pattern)) == Split(pattern)
  {
    var segs := Split(pattern);
    if |segs| > 1 && segs[|segs|-1] == "*" { StarEnds(pattern); }
    if EndsWith(pattern, ".*") {
      EndsDotStar(pattern);
      StarSplits(pattern[..|pattern|-2]);
    }
  }

  /** A pattern covers a path exactly when its segments, a final star aside, begin the path's. */
  lemma {:induction false} PatternExact(pattern: string, path: string)
    ensures PatternMatches(pattern, path) <==> pattern != "" && Root(Split(pattern)) <= Split(path)
  {
    if pattern == "" { return; }
    StarSegment(pattern);
    DotStar(pattern);
    HasPrefixIsSegmentPrefix(path, pattern);
    if EndsWith(pattern, ".*") { HasPrefixIsSegmentPrefix(path, pattern[..|pattern|-2]); }
  }

  /** Who may write where, on the first segment of the path and the service token's patterns. */
  lemma {:induction false} CanWriteExact(identity: Identity, path: string)
    ensures identity.role == None ==> !identity.CanWrite(path)
    ensures identity.role == Some(Viewer) ==> !identity.CanWrite(path)
    ensures identity.role == Some(Operator) ==> (identity.CanWrite(path) <==> Split(path)[0] == "__inputs")
    ensures identity.role == Some(Test) ==> (identity.CanWrite(path) <==> Split(path)[0] == "__test")
    ensures identity.role == Some(Service) ==>
      (identity.CanWrite(path) <==>
         && Split(path)[0] == "__inputs"
         && (identity.paths == []
             || exists p :: p in identity.paths && p != "" && Root(Split(p)) <= Split(path)))
  {
    NamespaceFirst(path, "__inputs");
    NamespaceFirst(path, "__test");
    forall p ensures PatternMatches(p, path) <==> p != "" && Root(Split(p)) <= Split(path) {
      PatternExact(p, path);
    }
  }

  /** No role reaches outside the two writable namespaces, and each only into its own. */
  lemma {:induction false} AuthorityStaysInNamespaces(identity: Identity, path: string)
    requires identity.CanWrite(path)
    ensures identity.role.Some? && identity.role != Some(Viewer)
    ensures Split(path)[0] == if identity.role == Some(Test) then "__test" else "__inputs"
  {
    CanWriteExact(identity, path);
  }
}
