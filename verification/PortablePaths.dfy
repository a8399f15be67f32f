/** Names for vendored files that Windows can create (scripts/_fetch_docs.py), and the validation
    the tree of names must pass (scripts/validate.py). */
module PortablePaths {
  import opened Orders

  /** Python's case mappings: `lower` maps whole strings, `fold` is the case folding of one
      character. Both leave the characters a rename introduces alone. */
  datatype Tables = Tables(lower: string -> string, fold: char -> string)

  ghost predicate Sound(t: Tables) {
    && (forall s: string {:trigger t.lower(s)} :: '-' in s ==> '-' in t.lower(s))
    && (forall s: string {:trigger t.lower(s)} :: '_' in s ==> '_' in t.lower(s))
    && (forall c: char :: c == '-' || '0' <= c <= '9' ==> t.fold(c) == [c])
  }

  type CaseTables = t: Tables | Sound(t) ghost witness Tables(s => s, c => [c])

  function Fold(t: Tables, s: string): string {
    if s == [] then [] else t.fold(s[0]) + Fold(t, s[1..])
  }

  lemma {:induction false} FoldAppend(t: Tables, a: string, b: string)
    ensures Fold(t, a + b) == Fold(t, a) + Fold(t, b)
  {
    if a == [] {
      assert a + b == b;
    } else {
      FoldAppend(t, a[1..], b);
      assert (a + b)[1..] == a[1..] + b;
    }
  }

  lemma {:induction false} FoldFixes(t: CaseTables, s: string)
    requires forall i :: 0 <= i < |s| ==> s[i] == '-' || '0' <= s[i] <= '9'
    ensures Fold(t, s) == s
  {
    if s == [] {
    } else {
      FoldFixes(t, s[1..]);
    }
  }

  // ----- one component -----

  predicate Illegal(c: char) {
    c in {'<', '>', ':', '\"', '|', '?', '*', '\\'} || c < ' '
  }

  predicate Legal(part: string) {
    forall i :: 0 <= i < |part| ==> !Illegal(part[i])
  }

  predicate Reserved(s: string) {
    s in {"con", "prn", "aux", "nul"} || (|s| == 4 && s[..3] in {"com", "lpt"} && '1' <= s[3] <= '9')
  }

  function Cleaned(part: string): string {
    seq(|part|, i requires 0 <= i < |part| => if Illegal(part[i]) then '-' else part[i])
  }

  /** What Windows strips from the end of a name. */
  predicate Strippable(c: char) {
    c == ' ' || c == '.'
  }

  /** `rstrip(" .")`. */
  function StripRight(s: string): (r: string)
    ensures r <= s
    ensures r != [] ==> !Strippable(r[|r| - 1])
    ensures r == s <==> s == [] || !Strippable(s[|s| - 1])
  {
    if s != [] && Strippable(s[|s| - 1]) then StripRight(s[..|s| - 1]) else s
  }

  /** `split(".", 1)[0]`: what precedes the first dot. */
  function Stem(s: string): string {
    if s == [] || s[0] == '.' then [] else [s[0]] + Stem(s[1..])
  }

  lemma {:induction false} StemAppend(a: string, b: string)
    ensures Stem(a + b) == if '.' in a then Stem(a) else a + Stem(b)
  {
    if a == [] {
      assert a + b == b;
    } else {
      StemAppend(a[1..], b);
      assert (a + b)[1..] == a[1..] + b;
      assert a == [a[0]] + a[1..];
    }
  }

  /** What the validator asks of a component. */
  predicate PortablePart(t: Tables, part: string) {
    && Legal(part)
    && part == StripRight(part)
    && !Reserved(t.lower(Stem(part)))
  }

  /** `portable_component`. */
  function PortableComponent(t: Tables, part: string): string {
    var safe := StripRight(Cleaned(part));
    var named := if Reserved(t.lower(Stem(safe))) then "_" + safe else safe;
    if named == [] then "_" else named
  }

  lemma MarkedIsNotReserved(t: CaseTables, s: string)
    requires '-' in s || '_' in s
    ensures !Reserved(t.lower(s))
  {
    assert '-' in t.lower(s) || '_' in t.lower(s);
  }

  /** Every component becomes portable, gains no separator, and one that was portable stays as it is. */
  lemma ComponentIsPortable(t: CaseTables, part: string)
    requires '/' !in part
    ensures PortablePart(t, PortableComponent(t, part))
    ensures PortableComponent(t, part) != [] && '/' !in PortableComponent(t, part)
    ensures PortableComponent(t, part) == part <==> part != [] && PortablePart(t, part)
  {
    var safe, named := StripRight(Cleaned(part)), PortableComponent(t, part);
    assert Legal(safe) && '/' !in safe;
    if Reserved(t.lower(Stem(safe))) || safe == [] {
      assert named == "_" + safe;
      assert Stem(named) == "_" + Stem(named[1..]);
      MarkedIsNotReserved(t, Stem(named));
    }
    if part != [] && PortablePart(t, part) {
      assert Cleaned(part) == part;
    }
  }

  // ----- paths -----

  predicate Slashless(parts: seq<string>) {
    forall i :: 0 <= i < |parts| ==> '/' !in parts[i]
  }

  /** An upstream path: its directories and its file. No component of one holds a separator. */
  datatype Rel = Rel(directories: seq<string>, file: string) {
    function Parts(): seq<string> {
      directories + [file]
    }
  }

  /** `os.path.join` of components that hold no separator. */
  function Join(parts: seq<string>): string
    requires parts != []
  {
    if |parts| == 1 then parts[0] else parts[0] + "/" + Join(parts[1..])
  }

  /** `path.split("/")`. */
  function Split(path: string): (r: seq<string>)
    ensures r != []
  {
    if path == [] then [[]]
    else
      var rest := Split(path[1..]);
      if path[0] == '/' then [[]] + rest else [[path[0]] + rest[0]] + rest[1..]
  }

  lemma {:induction false} SplitWhole(p: string)
    requires '/' !in p
    ensures Split(p) == [p]
  {
    if p == [] {
    } else {
      SplitWhole(p[1..]);
      assert p == [p[0]] + p[1..];
    }
  }

  lemma {:induction false} SplitFirst(p: string, s: string)
    requires '/' !in p
    ensures Split(p + "/" + s) == [p] + Split(s)
  {
    var path := p + "/" + s;
    if p == [] {
      assert path[1..] == s;
    } else {
      SplitFirst(p[1..], s);
      assert path[1..] == p[1..] + "/" + s;
      assert p == [p[0]] + p[1..];
    }
  }

  /** The validator's components are the ones that were joined. */
  lemma {:induction false} SplitJoin(parts: seq<string>)
    requires parts != [] && Slashless(parts)
    ensures Split(Join(parts)) == parts
  {
    if |parts| == 1 {
      SplitWhole(parts[0]);
    } else {
      SplitFirst(parts[0], Join(parts[1..]));
      SplitJoin(parts[1..]);
      assert parts == [parts[0]] + parts[1..];
    }
  }

  lemma {:induction false} JoinAppend(a: seq<string>, b: seq<string>)
    requires a != [] && b != []
    ensures Join(a + b) == Join(a) + "/" + Join(b)
  {
    assert (a + b)[1..] == a[1..] + b;
    if |a| == 1 {
      assert a[1..] + b == b;
    } else {
      JoinAppend(a[1..], b);
      assert Join(a + b) == a[0] + "/" + (Join(a[1..]) + "/" + Join(b));
    }
  }

  // ----- numbered names -----

  function LastIndex(s: string, c: char): (k: int)
    ensures -1 <= k < |s|
    ensures k >= 0 ==> s[k] == c
    ensures forall j :: k < j < |s| ==> s[j] != c
  {
    if s == [] then -1
    else if s[|s| - 1] == c then |s| - 1
    else LastIndex(s[..|s| - 1], c)
  }

  /** `os.path.splitext`: where the extension of the last component starts; leading dots start none. */
  function ExtensionStart(path: string): (d: nat)
    ensures d <= |path|
  {
    var sep, dot := LastIndex(path, '/'), LastIndex(path, '.');
    if dot > sep && exists i :: sep < i < dot && path[i] != '.' then dot else |path|
  }

  function Numbered(path: string, n: nat): string {
    path[..ExtensionStart(path)] + "-" + Decimal(n) + path[ExtensionStart(path)..]
  }

  function Base(t: Tables, rel: Rel): (r: seq<string>)
    ensures |r| == |rel.directories| + 1
  {
    var parts := rel.Parts();
    seq(|parts|, i requires 0 <= i < |parts| => PortableComponent(t, parts[i]))
  }

  /** The names `portable_relpath` tries: the bare one, then numbers from two. */
  function Candidate(t: Tables, rel: Rel, n: nat): string {
    var bare := Join(Base(t, rel));
    if n <= 1 then bare else Numbered(bare, n)
  }

  predicate PortablePath(t: Tables, path: string) {
    AllPortable(t, Split(path))
  }

  predicate AllPortable(t: Tables, parts: seq<string>) {
    forall i :: 0 <= i < |parts| ==> PortablePart(t, parts[i])
  }

  lemma NumberedStem(t: CaseTables, part: string, d: nat, n: nat)
    requires !Reserved(t.lower(Stem(part))) && d <= |part|
    ensures !Reserved(t.lower(Stem(part[..d] + ("-" + Decimal(n) + part[d..]))))
  {
    var tail := "-" + Decimal(n) + part[d..];
    assert part == part[..d] + part[d..];
    StemAppend(part[..d], part[d..]);
    StemAppend(part[..d], tail);
    if '.' !in part[..d] {
      assert Stem(tail)[0] == '-';
      assert Stem(part[..d] + tail)[d] == '-';
      MarkedIsNotReserved(t, Stem(part[..d] + tail));
    }
  }

  /** A number before the extension keeps a component portable. */
  lemma NumberedPart(t: CaseTables, part: string, d: nat, n: nat)
    requires part != [] && PortablePart(t, part) && '/' !in part && d <= |part|
    ensures var numbered := part[..d] + "-" + Decimal(n) + part[d..];
            PortablePart(t, numbered) && '/' !in numbered
  {
    var numbered := part[..d] + "-" + Decimal(n) + part[d..];
    assert numbered == part[..d] + ("-" + Decimal(n) + part[d..]);
    NumberedStem(t, part, d, n);
    assert !Strippable(numbered[|numbered| - 1]);
  }

  /** Numbering a path numbers its last component, before that component's own extension. */
  lemma NumberedLast(before: string, last: string, n: nat)
    requires before == [] || before[|before| - 1] == '/'
    requires '/' !in last
    ensures ExtensionStart(before + last) == |before| + ExtensionStart(last)
    ensures Numbered(before + last, n) == before + Numbered(last, n)
  {
    var path := before + last;
    ExtensionOfLast(before, last);
    assert path[..ExtensionStart(path)] == before + last[..ExtensionStart(last)];
    assert path[ExtensionStart(path)..] == last[ExtensionStart(last)..];
  }

  lemma ExtensionOfLast(before: string, last: string)
    requires before == [] || before[|before| - 1] == '/'
    requires '/' !in last
    ensures ExtensionStart(before + last) == |before| + ExtensionStart(last)
  {
    LastIndexIs(last, '/', -1);
    LastIndexOfLast(before, last, '.');
    assert LastIndex(before + last, '/') == |before| - 1 by {
      LastIndexIs(before + last, '/', |before| - 1);
    }
    SameDots(before, last, LastIndex(last, '.'));
  }

  lemma LastIndexOfLast(before: string, last: string, c: char)
    ensures var k, path := LastIndex(last, c), before + last;
            if k >= 0 then LastIndex(path, c) == |before| + k else LastIndex(path, c) < |before|
  {
    var k := LastIndex(last, c);
    if k >= 0 {
      LastIndexIs(before + last, c, |before| + k);
    }
  }

  /** Whether only dots come before a place in the last component. */
  lemma SameDots(before: string, last: string, dot: int)
    requires dot < |last|
    ensures (exists i :: |before| - 1 < i < |before| + dot && (before + last)[i] != '.') <==>
            (exists i :: -1 < i < dot && last[i] != '.')
  {
    if i :| -1 < i < dot && last[i] != '.' {
      assert (before + last)[|before| + i] != '.';
    }
    if i :| |before| - 1 < i < |before| + dot && (before + last)[i] != '.' {
      assert last[i - |before|] != '.';
    }
  }

  /** The last occurrence is the one nothing follows. */
  lemma LastIndexIs(s: string, c: char, k: int)
    requires -1 <= k < |s| && (k >= 0 ==> s[k] == c) && forall j :: k < j < |s| ==> s[j] != c
    ensures LastIndex(s, c) == k
  {
  }

  /** What stands before the last component of a joined path. */
  function Before(front: seq<string>): string {
    if front == [] then "" else Join(front) + "/"
  }

  lemma JoinLast(front: seq<string>, last: string)
    ensures Join(front + [last]) == Before(front) + last
  {
    if front == [] {
      assert front + [last] == [last];
    } else {
      JoinAppend(front, [last]);
    }
  }

  lemma NumberedIsPortable(t: CaseTables, front: seq<string>, last: string, n: nat)
    requires Slashless(front) && AllPortable(t, front)
    requires last != [] && '/' !in last && PortablePart(t, last)
    ensures PortablePath(t, Numbered(Join(front + [last]), n))
  {
    var d := ExtensionStart(last);
    NumberedLast(Before(front), last, n);
    var numbered := last[..d] + "-" + Decimal(n) + last[d..];
    NumberedPart(t, last, d, n);
    JoinLast(front, last);
    JoinLast(front, numbered);
    LastIsPortable(t, front, numbered);
  }

  lemma LastIsPortable(t: CaseTables, front: seq<string>, last: string)
    requires Slashless(front) && AllPortable(t, front) && '/' !in last && PortablePart(t, last)
    ensures PortablePath(t, Join(front + [last]))
  {
    SplitJoin(front + [last]);
  }

  /** Every name tried passes the validator's component rules. */
  lemma CandidateIsPortable(t: CaseTables, rel: Rel, n: nat)
    requires Slashless(rel.Parts())
    ensures PortablePath(t, Candidate(t, rel, n))
  {
    var parts := Base(t, rel);
    forall i | 0 <= i < |parts| ensures PortablePart(t, parts[i]) && parts[i] != [] && '/' !in parts[i] {
      ComponentIsPortable(t, rel.Parts()[i]);
    }
    if n <= 1 {
      SplitJoin(parts);
    } else {
      var front, last := parts[..|parts| - 1], parts[|parts| - 1];
      assert parts == front + [last];
      NumberedIsPortable(t, front, last, n);
    }
  }

  /** Different numbers never give names that fold together. */
  lemma NumberedInjective(t: CaseTables, path: string, m: nat, n: nat)
    requires Fold(t, Numbered(path, m)) == Fold(t, Numbered(path, n))
    ensures m == n
  {
    var stem, ext := path[..ExtensionStart(path)], path[ExtensionStart(path)..];
    FoldNumbered(t, stem, m, ext);
    FoldNumbered(t, stem, n, ext);
    var a, z := Fold(t, stem) + "-", Fold(t, ext);
    var whole := a + Decimal(m) + z;
    assert whole == a + Decimal(n) + z;
    assert |Decimal(m)| == |Decimal(n)|;
    assert Decimal(m) == whole[|a|..|a| + |Decimal(m)|] == Decimal(n);
    DecimalInjective(m, n);
  }

  lemma FoldNumbered(t: CaseTables, stem: string, n: nat, ext: string)
    ensures Fold(t, stem + "-" + Decimal(n) + ext) == Fold(t, stem) + "-" + Decimal(n) + Fold(t, ext)
  {
    FoldAppend(t, stem + "-" + Decimal(n), ext);
    FoldAppend(t, stem + "-", Decimal(n));
    FoldAppend(t, stem, "-");
    FoldFixes(t, "-");
    FoldFixes(t, Decimal(n));
  }

  /** The name is held by another path. */
  predicate Taken(t: Tables, used: map<string, Rel>, name: string, rel: Rel) {
    Fold(t, name) in used && used[Fold(t, name)] != rel
  }

  /** Numbers 2 to n can only all be taken when that many names are in use. */
  lemma {:induction false} TakenNumbers(t: CaseTables, used: map<string, Rel>, path: string, rel: Rel, n: nat)
    returns (keys: set<string>)
    requires n >= 1
    requires forall m :: 2 <= m <= n ==> Taken(t, used, Numbered(path, m), rel)
    ensures |keys| == n - 1 && keys <= used.Keys
    ensures forall key :: key in keys ==> exists m :: 2 <= m <= n && key == Fold(t, Numbered(path, m))
  {
    if n == 1 {
      keys := {};
    } else {
      keys := TakenNumbers(t, used, path, rel, n - 1);
      var key := Fold(t, Numbered(path, n));
      if key in keys {
        var m :| 2 <= m <= n - 1 && key == Fold(t, Numbered(path, m));
        NumberedInjective(t, path, m, n);
      }
      keys := keys + {key};
    }
  }

  // ----- the allocator -----

  /** `chosen` says, for each path seen so far, which of its candidates it was given. */
  ghost function Name(t: CaseTables, chosen: map<Rel, nat>, rel: Rel): string
    requires rel in chosen
  {
    Candidate(t, rel, chosen[rel])
  }

  /** What the first free candidate of a path is. */
  ghost predicate FirstFree(t: CaseTables, used: map<string, Rel>, rel: Rel, n: nat) {
    && n >= 1
    && !Taken(t, used, Candidate(t, rel, n), rel)
    && forall m :: 1 <= m < n ==> Taken(t, used, Candidate(t, rel, m), rel)
  }

  /** Each path holds its first free candidate, and every name in use is held by such a path. */
  ghost predicate Consistent(t: CaseTables, used: map<string, Rel>, chosen: map<Rel, nat>) {
    && (forall rel :: rel in chosen ==>
          FirstFree(t, used, rel, chosen[rel]) && Fold(t, Name(t, chosen, rel)) in used)
    && (forall key :: key in used ==> used[key] in chosen && Fold(t, Name(t, chosen, used[key])) == key)
  }

  /** What one call does to the table: a path seen before finds the name it holds and changes
      nothing; a new one gets its first free candidate, which nobody holds, and no claim moves. */
  ghost predicate Claimed(t: CaseTables, used: map<string, Rel>, chosen: map<Rel, nat>, rel: Rel, name: string,
                          used': map<string, Rel>, chosen': map<Rel, nat>) {
    && (rel in chosen ==> name == Name(t, chosen, rel) && used' == used && chosen' == chosen)
    && (rel !in chosen ==>
          exists n :: FirstFree(t, used, rel, n) && name == Candidate(t, rel, n) && Fold(t, name) !in used
                      && used' == used[Fold(t, name) := rel] && chosen' == chosen[rel := n])
  }

  /** A path seen before finds the name it holds. */
  lemma RevisitFindsName(t: CaseTables, used: map<string, Rel>, chosen: map<Rel, nat>, rel: Rel, n: nat)
    requires Consistent(t, used, chosen) && rel in chosen && FirstFree(t, used, rel, n)
    ensures n == chosen[rel]
  {
    assert !Taken(t, used, Candidate(t, rel, n), rel);
    assert !Taken(t, used, Candidate(t, rel, chosen[rel]), rel);
  }

  /** A new path's first free candidate is held by nobody, and claiming it frees and moves nothing. */
  lemma ClaimKeepsConsistent(t: CaseTables, used: map<string, Rel>, chosen: map<Rel, nat>, rel: Rel, n: nat)
    requires Consistent(t, used, chosen) && rel !in chosen && FirstFree(t, used, rel, n)
    ensures Fold(t, Candidate(t, rel, n)) !in used
    ensures Consistent(t, used[Fold(t, Candidate(t, rel, n)) := rel], chosen[rel := n])
  {
    var key := Fold(t, Candidate(t, rel, n));
    assert key !in used;
    var used', chosen' := used[key := rel], chosen[rel := n];
    forall r | r in chosen'
      ensures FirstFree(t, used', r, chosen'[r]) && Fold(t, Name(t, chosen', r)) in used'
    {
      if r != rel {
        assert Name(t, chosen', r) == Name(t, chosen, r);
        ClaimKeepsFirstFree(t, used, r, chosen[r], key, rel);
      } else {
        ClaimKeepsFirstFree(t, used, r, n, key, rel);
      }
    }
    forall k | k in used'
      ensures used'[k] in chosen' && Fold(t, Name(t, chosen', used'[k])) == k
    {
      if k != key {
        assert used[k] in chosen && Name(t, chosen', used[k]) == Name(t, chosen, used[k]);
      }
    }
  }

  lemma SameEntry<K, V>(m: map<K, V>, key: K, value: V)
    requires key in m && m[key] == value
    ensures m[key := value] == m
  {
  }

  lemma ClaimKeepsFirstFree(t: CaseTables, used: map<string, Rel>, r: Rel, n: nat, key: string, rel: Rel)
    requires FirstFree(t, used, r, n) && key !in used
    requires r == rel || Fold(t, Candidate(t, r, n)) in used
    ensures FirstFree(t, used[key := rel], r, n)
  {
    forall m | 1 <= m < n ensures Taken(t, used[key := rel], Candidate(t, r, m), r) {
      assert Taken(t, used, Candidate(t, r, m), r);
    }
  }

  lemma FirstFreeIsClaimed(t: CaseTables, used: map<string, Rel>, chosen: map<Rel, nat>, rel: Rel, n: nat)
    requires Consistent(t, used, chosen) && FirstFree(t, used, rel, n)
    ensures var name := Candidate(t, rel, n);
            var used', chosen' := used[Fold(t, name) := rel], chosen[rel := n];
            Consistent(t, used', chosen') && Claimed(t, used, chosen, rel, name, used', chosen')
  {
    if rel in chosen {
      RevisitFindsName(t, used, chosen, rel, n);
      assert Fold(t, Name(t, chosen, rel)) in used && !Taken(t, used, Candidate(t, rel, n), rel);
      SameEntry(used, Fold(t, Candidate(t, rel, n)), rel);
      SameEntry(chosen, rel, n);
    } else {
      ClaimKeepsConsistent(t, used, chosen, rel, n);
    }
  }

  lemma ClaimedKeepsNames(t: CaseTables, used: map<string, Rel>, chosen: map<Rel, nat>, rel: Rel, name: string,
                          used': map<string, Rel>, chosen': map<Rel, nat>)
    requires Claimed(t, used, chosen, rel, name, used', chosen')
    ensures rel in chosen' && name == Name(t, chosen', rel)
    ensures Keeps(chosen, chosen')
  {
  }

  /** Every path keeps the name it has. */
  ghost predicate Keeps(chosen: map<Rel, nat>, chosen': map<Rel, nat>) {
    forall rel :: rel in chosen ==> rel in chosen' && chosen'[rel] == chosen[rel]
  }

  /** The names are those of the paths. */
  ghost predicate NamesOf(t: CaseTables, chosen: map<Rel, nat>, rels: seq<Rel>, names: seq<string>) {
    |names| == |rels| && forall i :: 0 <= i < |rels| ==> rels[i] in chosen && names[i] == Name(t, chosen, rels[i])
  }

  /** One call of the fetch loop. */
  lemma OneMore(t: CaseTables, start: map<Rel, nat>, used: map<string, Rel>, chosen: map<Rel, nat>,
                used': map<string, Rel>, chosen': map<Rel, nat>, rels: seq<Rel>, i: nat,
                names: seq<string>, name: string)
    requires i < |rels| && NamesOf(t, chosen, rels[..i], names) && Keeps(start, chosen)
    requires Claimed(t, used, chosen, rels[i], name, used', chosen')
    ensures NamesOf(t, chosen', rels[..i + 1], names + [name]) && Keeps(start, chosen')
  {
    ClaimedKeepsNames(t, used, chosen, rels[i], name, used', chosen');
    TakeSnoc(rels, i);
  }

  /** Two paths hold names that differ on a case-insensitive file system. */
  lemma NamesDiffer(t: CaseTables, used: map<string, Rel>, chosen: map<Rel, nat>, a: Rel, b: Rel)
    requires Consistent(t, used, chosen) && a in chosen && b in chosen
    ensures Fold(t, Name(t, chosen, a)) == Fold(t, Name(t, chosen, b)) <==> a == b
  {
    assert FirstFree(t, used, a, chosen[a]) && FirstFree(t, used, b, chosen[b]);
  }

  /** The names given, staged under any portable directory and listed once each, pass validation. */
  lemma NamesPass(t: CaseTables, used: map<string, Rel>, chosen: map<Rel, nat>,
                  directory: seq<string>, rels: seq<Rel>, listed: seq<string>)
    requires Consistent(t, used, chosen) && |listed| == |rels|
    requires directory != [] && Slashless(directory) && AllPortable(t, directory)
    requires forall i :: 0 <= i < |rels| ==>
               Slashless(rels[i].Parts()) && rels[i] in chosen
               && listed[i] == Join(directory) + "/" + Name(t, chosen, rels[i])
    requires forall i, j :: 0 <= i < j < |listed| ==> listed[i] != listed[j]
    ensures Report(t, listed) == []
  {
    forall i | 0 <= i < |listed| ensures PortablePath(t, listed[i]) {
      ListedIsPortable(t, directory, rels[i], chosen[rels[i]]);
    }
    forall i, j | 0 <= i < j < |listed| ensures Fold(t, listed[i]) != Fold(t, listed[j]) {
      assert rels[i] != rels[j];
      NamesDiffer(t, used, chosen, rels[i], rels[j]);
      FoldUnder(t, Join(directory) + "/", Name(t, chosen, rels[i]), Name(t, chosen, rels[j]));
    }
    ReportEmptyIff(t, listed);
  }

  lemma FoldUnder(t: Tables, directory: string, a: string, b: string)
    requires Fold(t, a) != Fold(t, b)
    ensures Fold(t, directory + a) != Fold(t, directory + b)
  {
    FoldAppend(t, directory, a);
    FoldAppend(t, directory, b);
    var whole := Fold(t, directory + a);
    assert whole[|Fold(t, directory)|..] == Fold(t, a);
    assert Fold(t, directory + b)[|Fold(t, directory)|..] == Fold(t, b);
  }

  lemma ListedIsPortable(t: CaseTables, directory: seq<string>, rel: Rel, n: nat)
    requires directory != [] && Slashless(directory) && AllPortable(t, directory) && Slashless(rel.Parts())
    ensures PortablePath(t, Join(directory) + "/" + Candidate(t, rel, n))
  {
    CandidateIsPortable(t, rel, n);
    SplitUnder(directory, Candidate(t, rel, n));
  }

  /** The `used` dictionary of one fetch, with the calls that extend it. */
  class Allocator {
    const tables: CaseTables
    var used: map<string, Rel>
    ghost var chosen: map<Rel, nat>

    ghost predicate Valid()
      reads this
    {
      Consistent(tables, used, chosen)
    }

    constructor (tables: CaseTables)
      ensures Valid() && this.tables == tables && used == map[] && chosen == map[]
    {
      this.tables := tables;
      used := map[];
      chosen := map[];
    }

    /** `portable_relpath`. */
    method PortableRelpath(rel: Rel) returns (name: string)
      requires Valid()
      modifies this
      ensures Valid()
      ensures Claimed(tables, old(used), old(chosen), rel, name, used, chosen)
    {
      ghost var number;
      name, number := FirstFreeName(rel);
      FirstFreeIsClaimed(tables, used, chosen, rel, number);
      used := used[Fold(tables, name) := rel];
      chosen := chosen[rel := number];
    }

    /** The bare name unless another path holds it, else the first free numbered one. */
    method FirstFreeName(rel: Rel) returns (name: string, ghost number: nat)
      ensures FirstFree(tables, used, rel, number) && name == Candidate(tables, rel, number)
    {
      var bare := Join(Base(tables, rel));
      name, number := bare, 1;
      assert Candidate(tables, rel, 1) == bare;
      if Taken(tables, used, name, rel) {
        var n := FreeNumber(bare, rel);
        name, number := Numbered(bare, n), n;
        assert forall m :: 2 <= m <= n ==> Candidate(tables, rel, m) == Numbered(bare, m);
      }
    }

    /** The suffix search: the first number from two whose name no other path holds. */
    method FreeNumber(path: string, rel: Rel) returns (n: nat)
      ensures n >= 2 && !Taken(tables, used, Numbered(path, n), rel)
      ensures forall m :: 2 <= m < n ==> Taken(tables, used, Numbered(path, m), rel)
    {
      n := 2;
      while Taken(tables, used, Numbered(path, n), rel)
        invariant n >= 2
        invariant forall m :: 2 <= m < n ==> Taken(tables, used, Numbered(path, m), rel)
        decreases |used| + 2 - n
      {
        ghost var keys := TakenNumbers(tables, used, path, rel, n);
        SubsetSize(keys, used.Keys);
        n := n + 1;
      }
    }

    /** The fetch loop over the upstream paths, revisits included: equal paths get equal names,
        distinct paths get names that fold apart, and paths of earlier calls keep theirs. */
    method AllocateAll(rels: seq<Rel>) returns (names: seq<string>)
      requires Valid()
      modifies this
      ensures Valid() && NamesOf(tables, chosen, rels, names) && Keeps(old(chosen), chosen)
    {
      names := [];
      for i := 0 to |rels|
        invariant Valid() && NamesOf(tables, chosen, rels[..i], names) && Keeps(old(chosen), chosen)
      {
        ghost var used', chosen' := used, chosen;
        var name := PortableRelpath(rels[i]);
        OneMore(tables, old(chosen), used', chosen', used, chosen, rels, i, names, name);
        names := names + [name];
      }
      assert rels[..|rels|] == rels;
    }
  }

  lemma {:induction false} SplitUnder(directory: seq<string>, name: string)
    requires directory != [] && Slashless(directory)
    ensures Split(Join(directory) + "/" + name) == directory + Split(name)
  {
    if |directory| == 1 {
      SplitFirst(directory[0], name);
    } else {
      SplitUnder(directory[1..], name);
      var rest := Join(directory[1..]);
      assert directory[0] + "/" + rest + "/" + name == directory[0] + "/" + (rest + "/" + name);
      SplitFirst(directory[0], Join(directory[1..]) + "/" + name);
      assert directory == [directory[0]] + directory[1..];
    }
  }

  // ----- the validator -----

  datatype Finding =
    | IllegalCharacters(path: string, part: string)
    | TrailingSpaceOrDot(path: string, part: string)
    | ReservedName(path: string, part: string)
    | Collision(path: string, earlier: string)

  /** What is wrong with one component. */
  function PartFindings(t: Tables, path: string, part: string): seq<Finding> {
    (if !Legal(part) then [IllegalCharacters(path, part)] else []) +
    (if part != StripRight(part) then [TrailingSpaceOrDot(path, part)] else []) +
    (if Reserved(t.lower(Stem(part))) then [ReservedName(path, part)] else [])
  }

  function PathFindings(t: Tables, path: string, parts: seq<string>): seq<Finding> {
    if parts == [] then []
    else PathFindings(t, path, parts[..|parts| - 1]) + PartFindings(t, path, parts[|parts| - 1])
  }

  /** The first listed path that folds to `key`, if any. */
  function Earlier(t: Tables, paths: seq<string>, key: string): (r: seq<string>)
    ensures |r| <= 1
  {
    if paths == [] then []
    else if Fold(t, paths[0]) == key then [paths[0]]
    else Earlier(t, paths[1..], key)
  }

  function Collisions(t: Tables, before: seq<string>, path: string): seq<Finding> {
    var earlier := Earlier(t, before, Fold(t, path));
    if earlier == [] then [] else [Collision(path, earlier[0])]
  }

  /** All errors of a listing, in the order they are reported. */
  function Report(t: Tables, paths: seq<string>): seq<Finding> {
    if paths == [] then []
    else
      var before, path := paths[..|paths| - 1], paths[|paths| - 1];
      Report(t, before) + PathFindings(t, path, Split(path)) + Collisions(t, before, path)
  }

  lemma {:induction false} PathFindingsEmptyIff(t: Tables, path: string, parts: seq<string>)
    ensures PathFindings(t, path, parts) == [] <==> AllPortable(t, parts)
  {
    if parts == [] {
    } else {
      PathFindingsEmptyIff(t, path, parts[..|parts| - 1]);
    }
  }

  lemma TakeSnoc<T>(s: seq<T>, i: nat)
    requires i < |s|
    ensures s[..i + 1] == s[..i] + [s[i]] && s[..|s|] == s
  {
  }

  /** Every component of every path is portable and no two paths fold together. */
  predicate Clean(t: Tables, paths: seq<string>) {
    && (forall i :: 0 <= i < |paths| ==> PortablePath(t, paths[i]))
    && (forall i, j :: 0 <= i < j < |paths| ==> Fold(t, paths[i]) != Fold(t, paths[j]))
  }

  lemma ReportSnoc(t: Tables, before: seq<string>, path: string)
    ensures Report(t, before + [path]) ==
            Report(t, before) + PathFindings(t, path, Split(path)) + Collisions(t, before, path)
  {
    assert (before + [path])[..|before|] == before;
  }

  lemma {:induction false} EarlierEmptyIff(t: Tables, paths: seq<string>, key: string)
    ensures Earlier(t, paths, key) == [] <==> forall i :: 0 <= i < |paths| ==> Fold(t, paths[i]) != key
  {
    if paths == [] {
    } else {
      EarlierEmptyIff(t, paths[1..], key);
      assert forall i :: 1 <= i < |paths| ==> paths[i] == paths[1..][i - 1];
    }
  }

  lemma CleanSnoc(t: Tables, before: seq<string>, path: string)
    ensures Clean(t, before + [path]) <==>
              Clean(t, before) && PortablePath(t, path) && Collisions(t, before, path) == []
  {
    var paths := before + [path];
    EarlierEmptyIff(t, before, Fold(t, path));
    assert forall i :: 0 <= i < |before| ==> paths[i] == before[i];
    assert paths[|before|] == path;
  }

  /** Validation reports nothing exactly when every component of every path is portable and no
      two paths of the listing fold together. */
  lemma {:induction false} ReportEmptyIff(t: Tables, paths: seq<string>)
    ensures Report(t, paths) == [] <==> Clean(t, paths)
  {
    if paths == [] {
    } else {
      var before, path := paths[..|paths| - 1], paths[|paths| - 1];
      TakeSnoc(paths, |paths| - 1);
      ReportEmptyIff(t, before);
      PathFindingsEmptyIff(t, path, Split(path));
      ReportSnoc(t, before, path);
      CleanSnoc(t, before, path);
    }
  }

  const MAX_PORTABLE_PATH_LEN: nat := 200

  /** The listing restricted to its long paths, each of which is only a warning. */
  function LongPaths(paths: seq<string>): seq<string> {
    if paths == [] then []
    else
      var path := paths[|paths| - 1];
      LongPaths(paths[..|paths| - 1]) + if |path| > MAX_PORTABLE_PATH_LEN then [path] else []
  }

  method ValidatePart(t: Tables, path: string, part: string) returns (errors: seq<Finding>)
    ensures errors == PartFindings(t, path, part)
  {
    errors := [];
    if !Legal(part) {
      errors := errors + [IllegalCharacters(path, part)];
    }
    if part != StripRight(part) {
      errors := errors + [TrailingSpaceOrDot(path, part)];
    }
    if Reserved(t.lower(Stem(part))) {
      errors := errors + [ReservedName(path, part)];
    }
  }

  /** The inner loop of `validate_path_portability`. */
  method ValidateParts(t: Tables, path: string, parts: seq<string>) returns (errors: seq<Finding>)
    ensures errors == PathFindings(t, path, parts)
  {
    errors := [];
    for j := 0 to |parts|
      invariant errors == PathFindings(t, path, parts[..j])
    {
      var found := ValidatePart(t, path, parts[j]);
      assert parts[..j + 1][..j] == parts[..j];
      errors := errors + found;
    }
    assert parts[..|parts|] == parts;
  }

  /** `validate_path_portability` over the listed paths. */
  method Validate(t: Tables, paths: seq<string>) returns (errors: seq<Finding>, warnings: seq<string>)
    ensures errors == Report(t, paths)
    ensures warnings == LongPaths(paths)
  {
    errors, warnings := [], [];
    var seen: map<string, string> := map[];
    for i := 0 to |paths|
      invariant errors == Report(t, paths[..i])
      invariant warnings == LongPaths(paths[..i])
      invariant SeenIs(t, paths[..i], seen)
    {
      var path := paths[i];
      TakeSnoc(paths, i);
      ReportSnoc(t, paths[..i], path);
      SeenSnoc(t, paths[..i], path, seen);
      var found := ValidateParts(t, path, Split(path));
      errors := errors + found;
      var key := Fold(t, path);
      if key in seen {
        errors := errors + [Collision(path, seen[key])];
      } else {
        seen := seen[key := path];
      }
      if |path| > MAX_PORTABLE_PATH_LEN {
        warnings := warnings + [path];
      }
    }
    assert paths[..|paths|] == paths;
  }

  /** The `seen` dictionary holds the first path of each key. */
  ghost predicate SeenIs(t: Tables, paths: seq<string>, seen: map<string, string>) {
    forall key :: Earlier(t, paths, key) == if key in seen then [seen[key]] else []
  }

  lemma SeenSnoc(t: Tables, paths: seq<string>, path: string, seen: map<string, string>)
    requires SeenIs(t, paths, seen)
    ensures var key := Fold(t, path); SeenIs(t, paths + [path], if key in seen then seen else seen[key := path])
  {
    forall key
      ensures Earlier(t, paths + [path], key) ==
              if Earlier(t, paths, key) != [] then Earlier(t, paths, key)
              else if Fold(t, path) == key then [path] else []
    {
      EarlierSnoc(t, paths, path, key);
    }
  }

  lemma {:induction false} EarlierSnoc(t: Tables, paths: seq<string>, path: string, key: string)
    ensures Earlier(t, paths + [path], key) ==
            if Earlier(t, paths, key) != [] then Earlier(t, paths, key)
            else if Fold(t, path) == key then [path] else []
  {
    if paths == [] {
    } else {
      EarlierSnoc(t, paths[1..], path, key);
      assert (paths + [path])[1..] == paths[1..] + [path];
    }
  }
}
