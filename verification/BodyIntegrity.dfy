/** Comparison of decoded transaction bodies (transaction_body_integrity.go). */
module BodyIntegrity {
  import Orders

  /** A decoded value as reflection sees it. `ty` identifies its type. `Cached` stands for the
      stored-CBOR and body-hash types, whose content is never compared. A map is listed in the
      order iteration happens to produce; `byValue` says whether its key type compares by
      value. */
  datatype Node =
    | Cached(ty: nat, bytes: seq<int>)
    | Scalar(ty: nat, value: int)
    | Text(ty: nat, text: string)
    | Indirect(ty: nat, isNil: bool, target: seq<Node>)
    | Struct(ty: nat, fields: seq<Node>)
    | List(ty: nat, isNil: bool, elems: seq<Node>)
    | Table(ty: nat, byValue: bool, isNil: bool, entries: seq<Entry>)

  datatype Entry = Entry(key: Node, val: Node)

  /** Mutually inverse renumberings of `n` positions. */
  ghost predicate Inverse(p: seq<nat>, q: seq<nat>, n: nat) {
    && |p| == n && |q| == n
    && (forall i :: 0 <= i < n ==> p[i] < n && q[p[i]] == i)
    && (forall j :: 0 <= j < n ==> q[j] < n && p[q[j]] == j)
  }

  /** The comparison stated without an algorithm: equal types; equal content up to caches; and
      for maps a one-to-one matching of the entries. */
  ghost predicate Same(l: Node, r: Node)
    decreases l
  {
    l.ty == r.ty &&
    match (l, r)
    case (Cached(_, _), Cached(_, _)) => true
    case (Scalar(_, v), Scalar(_, w)) => v == w
    case (Text(_, s), Text(_, t)) => s == t
    case (Indirect(_, nl, tl), Indirect(_, nr, tr)) =>
      nl == nr && |tl| == |tr| && forall i :: 0 <= i < |tl| ==> Same(tl[i], tr[i])
    case (Struct(_, fl), Struct(_, fr)) => |fl| == |fr| && forall i :: 0 <= i < |fl| ==> Same(fl[i], fr[i])
    case (List(_, nl, el), List(_, nr, er)) =>
      nl == nr && |el| == |er| && forall i :: 0 <= i < |el| ==> Same(el[i], er[i])
    case (Table(_, bl, nl, el), Table(_, br, nr, er)) =>
      bl == br && nl == nr && |el| == |er| &&
      exists p, q :: Inverse(p, q, |el|) &&
        forall i :: 0 <= i < |el| ==>
          (if bl then el[i].key == er[p[i]].key else Same(el[i].key, er[p[i]].key)) && Same(el[i].val, er[p[i]].val)
    case _ => false
  }

  ghost predicate SameEntry(byValue: bool, e: Entry, f: Entry)
    decreases e, 1
  {
    (if byValue then e.key == f.key else Same(e.key, f.key)) && Same(e.val, f.val)
  }

  ghost predicate Matching(byValue: bool, l: seq<Entry>, r: seq<Entry>, p: seq<nat>, q: seq<nat>) {
    |l| == |r| && Inverse(p, q, |l|) && forall i :: 0 <= i < |l| ==> SameEntry(byValue, l[i], r[p[i]])
  }

  lemma TablesMatch(l: Node, r: Node)
    requires l.Table? && r.Table? && l.ty == r.ty && l.byValue == r.byValue && l.isNil == r.isNil
    ensures Same(l, r) <==> exists p, q :: Matching(l.byValue, l.entries, r.entries, p, q)
  {
    if Same(l, r) {
      var p, q :| Inverse(p, q, |l.entries|) &&
        forall i :: 0 <= i < |l.entries| ==>
          (if l.byValue then l.entries[i].key == r.entries[p[i]].key
           else Same(l.entries[i].key, r.entries[p[i]].key)) &&
          Same(l.entries[i].val, r.entries[p[i]].val);
      assert Matching(l.byValue, l.entries, r.entries, p, q);
    }
    if p, q :| Matching(l.byValue, l.entries, r.entries, p, q) {
      assert Inverse(p, q, |l.entries|);
      forall i | 0 <= i < |l.entries|
        ensures (if l.byValue then l.entries[i].key == r.entries[p[i]].key
                 else Same(l.entries[i].key, r.entries[p[i]].key)) &&
                Same(l.entries[i].val, r.entries[p[i]].val)
      {
        assert SameEntry(l.byValue, l.entries[i], r.entries[p[i]]);
      }
    }
  }

  // ----- an equivalence relation -----

  function Identity(n: nat): seq<nat> {
    seq(n, i => i)
  }

  lemma {:induction false} Reflexive(n: Node)
    ensures Same(n, n)
    decreases n
  {
    match n
    case Cached(_, _) =>
    case Scalar(_, _) =>
    case Text(_, _) =>
    case Indirect(_, _, t) => forall i | 0 <= i < |t| { Reflexive(t[i]); }
    case Struct(_, f) => forall i | 0 <= i < |f| { Reflexive(f[i]); }
    case List(_, _, e) => forall i | 0 <= i < |e| { Reflexive(e[i]); }
    case Table(_, byValue, _, e) =>
      var id := Identity(|e|);
      forall i | 0 <= i < |e| ensures SameEntry(byValue, e[i], e[id[i]]) {
        Reflexive(e[i].key);
        Reflexive(e[i].val);
      }
      assert Matching(byValue, e, e, id, id);
      TablesMatch(n, n);
  }

  lemma {:induction false} Symmetric(l: Node, r: Node)
    requires Same(l, r)
    ensures Same(r, l)
    decreases l
  {
    match (l, r)
    case (Cached(_, _), Cached(_, _)) =>
    case (Scalar(_, _), Scalar(_, _)) =>
    case (Text(_, _), Text(_, _)) =>
    case (Indirect(_, _, tl), Indirect(_, _, tr)) => forall i | 0 <= i < |tl| { Symmetric(tl[i], tr[i]); }
    case (Struct(_, fl), Struct(_, fr)) => forall i | 0 <= i < |fl| { Symmetric(fl[i], fr[i]); }
    case (List(_, _, el), List(_, _, er)) => forall i | 0 <= i < |el| { Symmetric(el[i], er[i]); }
    case (Table(_, byValue, _, el), Table(_, _, _, er)) =>
      TablesMatch(l, r);
      var p, q :| Matching(byValue, el, er, p, q);
      forall j | 0 <= j < |er| ensures SameEntry(byValue, er[j], el[q[j]]) {
        var e, f := el[q[j]], er[p[q[j]]];
        assert SameEntry(byValue, e, f);
        if !byValue {
          Symmetric(e.key, f.key);
        }
        Symmetric(e.val, f.val);
      }
      assert Matching(byValue, er, el, q, p);
      TablesMatch(r, l);
  }

  function Compose(p: seq<nat>, q: seq<nat>): seq<nat>
    requires forall i :: 0 <= i < |p| ==> p[i] < |q|
  {
    seq(|p|, i requires 0 <= i < |p| => q[p[i]])
  }

  lemma {:induction false} Transitive(a: Node, b: Node, c: Node)
    requires Same(a, b) && Same(b, c)
    ensures Same(a, c)
    decreases a, 1
  {
    match (a, b, c)
    case (Cached(_, _), Cached(_, _), Cached(_, _)) =>
    case (Scalar(_, _), Scalar(_, _), Scalar(_, _)) =>
    case (Text(_, _), Text(_, _), Text(_, _)) =>
    case (Indirect(_, _, ta), Indirect(_, _, tb), Indirect(_, _, tc)) =>
      forall i | 0 <= i < |ta| { Transitive(ta[i], tb[i], tc[i]); }
    case (Struct(_, fa), Struct(_, fb), Struct(_, fc)) =>
      forall i | 0 <= i < |fa| { Transitive(fa[i], fb[i], fc[i]); }
    case (List(_, _, ea), List(_, _, eb), List(_, _, ec)) =>
      forall i | 0 <= i < |ea| { Transitive(ea[i], eb[i], ec[i]); }
    case (Table(_, _, _, _), Table(_, _, _, _), Table(_, _, _, _)) =>
      TransitiveTables(a, b, c);
  }

  lemma {:induction false} TransitiveTables(a: Node, b: Node, c: Node)
    requires a.Table? && b.Table? && c.Table? && Same(a, b) && Same(b, c)
    ensures Same(a, c)
    decreases a, 0, 2
  {
    TablesMatch(a, b);
    TablesMatch(b, c);
    var p, p' :| Matching(a.byValue, a.entries, b.entries, p, p');
    var q, q' :| Matching(a.byValue, b.entries, c.entries, q, q');
    TransitiveMatching(a, b.entries, c.entries, p, p', q, q');
    TablesMatch(a, c);
  }

  /** Two matchings compose. */
  lemma TransitiveMatching(a: Node, b: seq<Entry>, c: seq<Entry>, p: seq<nat>, p': seq<nat>, q: seq<nat>, q': seq<nat>)
    requires a.Table? && Matching(a.byValue, a.entries, b, p, p') && Matching(a.byValue, b, c, q, q')
    ensures Matching(a.byValue, a.entries, c, Compose(p, q), Compose(q', p'))
    decreases a, 0, 1
  {
    forall i | 0 <= i < |a.entries| ensures SameEntry(a.byValue, a.entries[i], c[q[p[i]]]) {
      TransitiveEntries(a, i, b[p[i]], c[q[p[i]]]);
    }
    ComposeMatchings(a.byValue, a.entries, b, c, p, p', q, q');
  }

  lemma TransitiveEntries(owner: Node, i: nat, f: Entry, g: Entry)
    requires owner.Table? && i < |owner.entries|
    requires SameEntry(owner.byValue, owner.entries[i], f) && SameEntry(owner.byValue, f, g)
    ensures SameEntry(owner.byValue, owner.entries[i], g)
    decreases owner, 0, 0
  {
    var e := owner.entries[i];
    if !owner.byValue {
      Transitive(e.key, f.key, g.key);
    }
    Transitive(e.val, f.val, g.val);
  }

  lemma ComposeMatchings(byValue: bool, a: seq<Entry>, b: seq<Entry>, c: seq<Entry>,
                         p: seq<nat>, p': seq<nat>, q: seq<nat>, q': seq<nat>)
    requires Matching(byValue, a, b, p, p') && Matching(byValue, b, c, q, q')
    requires forall i :: 0 <= i < |a| ==> SameEntry(byValue, a[i], c[q[p[i]]])
    ensures Matching(byValue, a, c, Compose(p, q), Compose(q', p'))
  {
    ComposeInverses(p, p', q, q', |a|);
  }

  lemma ComposeInverses(p: seq<nat>, p': seq<nat>, q: seq<nat>, q': seq<nat>, n: nat)
    requires Inverse(p, p', n) && Inverse(q, q', n)
    ensures Inverse(Compose(p, q), Compose(q', p'), n)
  {
  }

  /** Two entries that match a common one match the same entries. */
  lemma SameClass(e: Entry, f: Entry, x: Entry, y: Entry)
    requires SameEntry(false, e, x) && SameEntry(false, f, x) && SameEntry(false, e, y)
    ensures SameEntry(false, f, y)
  {
    Symmetric(e.key, x.key);
    Symmetric(e.val, x.val);
    Transitive(f.key, x.key, e.key);
    Transitive(f.val, x.val, e.val);
    Transitive(f.key, e.key, y.key);
    Transitive(f.val, e.val, y.val);
  }

  /** The order in which a map's entries are listed does not matter. */
  lemma ListingIsIrrelevant(n: Node, p: seq<nat>, q: seq<nat>)
    requires n.Table? && Inverse(p, q, |n.entries|)
    ensures Same(n, n.(entries := seq(|n.entries|, i requires 0 <= i < |n.entries| => n.entries[p[i]])))
  {
    var e := n.entries;
    var listed := seq(|e|, i requires 0 <= i < |e| => e[p[i]]);
    forall i | 0 <= i < |e| ensures SameEntry(n.byValue, e[i], listed[q[i]]) {
      Reflexive(e[i].key);
      Reflexive(e[i].val);
    }
    assert Matching(n.byValue, e, listed, q, p);
    TablesMatch(n, n.(entries := listed));
  }

  // ----- caches do not matter -----

  /** The value with every cache emptied. */
  function Stripped(n: Node): Node
    decreases n, 1
  {
    match n
    case Cached(ty, _) => Cached(ty, [])
    case Scalar(_, _) => n
    case Text(_, _) => n
    case Indirect(ty, isNil, t) => Indirect(ty, isNil, seq(|t|, i requires 0 <= i < |t| => Stripped(t[i])))
    case Struct(ty, f) => Struct(ty, seq(|f|, i requires 0 <= i < |f| => Stripped(f[i])))
    case List(ty, isNil, e) => List(ty, isNil, seq(|e|, i requires 0 <= i < |e| => Stripped(e[i])))
    case Table(ty, byValue, isNil, e) =>
      Table(ty, byValue, isNil, seq(|e|, i requires 0 <= i < |e| => StrippedEntry(byValue, e[i])))
  }

  /** Keys that compare by value hold no caches. */
  function StrippedEntry(byValue: bool, e: Entry): Entry
    decreases e, 0
  {
    Entry(if byValue then e.key else Stripped(e.key), Stripped(e.val))
  }

  lemma {:induction false} SameAsStripped(n: Node)
    ensures Same(n, Stripped(n))
    decreases n, 1
  {
    match n
    case Cached(_, _) =>
    case Scalar(_, _) =>
    case Text(_, _) =>
    case Indirect(_, _, t) => forall i | 0 <= i < |t| { SameAsStripped(t[i]); }
    case Struct(_, f) => forall i | 0 <= i < |f| { SameAsStripped(f[i]); }
    case List(_, _, e) => forall i | 0 <= i < |e| { SameAsStripped(e[i]); }
    case Table(_, byValue, _, e) =>
      var id, r := Identity(|e|), Stripped(n).entries;
      forall i | 0 <= i < |e| ensures SameEntry(byValue, e[i], r[id[i]]) {
        SameAsStrippedEntry(byValue, e[i]);
        assert r[id[i]] == StrippedEntry(byValue, e[i]);
      }
      assert Matching(byValue, e, r, id, id);
      TablesMatch(n, Stripped(n));
  }

  lemma SameAsStrippedEntry(byValue: bool, e: Entry)
    ensures SameEntry(byValue, e, StrippedEntry(byValue, e))
    decreases e, 0
  {
    SameAsStripped(e.key);
    SameAsStripped(e.val);
  }

  /** The comparison sees two values exactly as it sees them with their caches emptied. */
  lemma CachesAreIgnored(l: Node, r: Node)
    ensures Same(l, r) <==> Same(Stripped(l), Stripped(r))
  {
    SameAsStripped(l);
    SameAsStripped(r);
    Symmetric(l, Stripped(l));
    Symmetric(r, Stripped(r));
    if Same(l, r) {
      Transitive(Stripped(l), l, r);
      Transitive(Stripped(l), r, Stripped(r));
    }
    if Same(Stripped(l), Stripped(r)) {
      Transitive(l, Stripped(l), Stripped(r));
      Transitive(l, Stripped(r), r);
    }
  }

  // ----- map keys -----

  /** The type of a map's keys: a basic kind, an array, a struct, or a kind that refers to
      something else. Stored-CBOR and body-hash types are of the last kind. */
  datatype KeyType = Basic | ArrayOf(elem: KeyType) | StructOf(fields: seq<KeyType>) | Referring

  /** `mapKeyUsesValueEquality`. */
  predicate UsesValueEquality(t: KeyType) {
    match t
    case Basic => true
    case ArrayOf(elem) => UsesValueEquality(elem)
    case StructOf(fields) => forall i :: 0 <= i < |fields| ==> UsesValueEquality(fields[i])
    case Referring => false
  }

  ghost predicate HasType(n: Node, t: KeyType) {
    match t
    case Basic => n.Scalar? || n.Text?
    case ArrayOf(elem) => n.List? && !n.isNil && forall i :: 0 <= i < |n.elems| ==> HasType(n.elems[i], elem)
    case StructOf(fields) =>
      n.Struct? && |n.fields| == |fields| && forall i :: 0 <= i < |fields| ==> HasType(n.fields[i], fields[i])
    case Referring => true
  }

  /** On the key types looked up directly, the comparison is equality. */
  lemma {:induction false} ValueKeysCompareExactly(l: Node, r: Node, t: KeyType)
    requires UsesValueEquality(t) && HasType(l, t) && HasType(r, t)
    ensures Same(l, r) <==> l == r
    decreases t
  {
    Reflexive(l);
    if Same(l, r) {
      match t
      case Basic =>
      case ArrayOf(elem) =>
        forall i | 0 <= i < |l.elems| ensures l.elems[i] == r.elems[i] {
          ValueKeysCompareExactly(l.elems[i], r.elems[i], elem);
        }
        assert l.elems == r.elems;
      case StructOf(fields) =>
        forall i | 0 <= i < |fields| ensures l.fields[i] == r.fields[i] {
          ValueKeysCompareExactly(l.fields[i], r.fields[i], fields[i]);
        }
        assert l.fields == r.fields;
    }
  }

  /** Looking keys up and matching entries greedily decide the same question there. */
  lemma LookupAgreesWithMatching(l: seq<Entry>, r: seq<Entry>, t: KeyType, p: seq<nat>, q: seq<nat>)
    requires UsesValueEquality(t)
    requires forall e :: e in l || e in r ==> HasType(e.key, t)
    ensures Matching(true, l, r, p, q) <==> Matching(false, l, r, p, q)
  {
    if |l| == |r| && Inverse(p, q, |l|) {
      forall i | 0 <= i < |l| ensures SameEntry(true, l[i], r[p[i]]) <==> SameEntry(false, l[i], r[p[i]]) {
        assert l[i] in l && r[p[i]] in r;
        ValueKeysCompareExactly(l[i].key, r[p[i]].key, t);
      }
    }
  }

  // ----- counting -----

  function Image(s: set<nat>, f: seq<nat>): set<nat>
    requires forall k :: k in s ==> k < |f|
  {
    set k | k in s :: f[k]
  }

  ghost predicate InjectiveOn(s: set<nat>, f: seq<nat>)
    requires forall k :: k in s ==> k < |f|
  {
    forall k, l :: k in s && l in s && k != l ==> f[k] != f[l]
  }

  lemma {:induction false} ImageSize(s: set<nat>, f: seq<nat>)
    requires forall k :: k in s ==> k < |f|
    ensures |Image(s, f)| <= |s|
    ensures InjectiveOn(s, f) ==> |Image(s, f)| == |s|
  {
    if s != {} {
      var k :| k in s;
      ImageSize(s - {k}, f);
      assert Image(s, f) == Image(s - {k}, f) + {f[k]};
    }
  }

  function Below(n: nat): (s: set<nat>)
    ensures forall k: int :: k in s <==> 0 <= k < n
  {
    if n == 0 then {} else Below(n - 1) + {n - 1}
  }

  lemma {:induction false} BelowSize(n: nat)
    ensures |Below(n)| == n
  {
    if n > 0 {
      BelowSize(n - 1);
      assert Below(n) == Below(n - 1) + {n - 1};
    }
  }

  ghost predicate Injection(m: seq<nat>, n: nat) {
    (forall k :: 0 <= k < |m| ==> m[k] < n) && forall k, l :: 0 <= k < l < |m| ==> m[k] != m[l]
  }

  /** An injection of `n` positions into themselves reaches all of them. */
  lemma InjectionIsOnto(m: seq<nat>)
    requires Injection(m, |m|)
    ensures forall j :: 0 <= j < |m| ==> j in m
  {
    BelowSize(|m|);
    OntoAll(m, Below(|m|));
  }

  lemma OntoAll(m: seq<nat>, all: set<nat>)
    requires Injection(m, |m|) && |all| == |m| && forall k: int :: k in all <==> 0 <= k < |m|
    ensures forall j :: 0 <= j < |m| ==> j in m
  {
    forall k, l | k in all && l in all && k != l ensures m[k] != m[l] {
      assert k < l || l < k;
    }
    ImageSize(all, m);
    Orders.SubsetSize(Image(all, m), all);
    forall j | 0 <= j < |m| ensures j in m {
      assert j in Image(all, m);
    }
  }

  lemma InverseExists(m: seq<nat>) returns (q: seq<nat>)
    requires Injection(m, |m|)
    ensures Inverse(m, q, |m|)
  {
    var n := |m|;
    InjectionIsOnto(m);
    q := [];
    for j := 0 to n
      invariant |q| == j
      invariant forall i :: 0 <= i < j ==> q[i] < n && m[q[i]] == i
    {
      assert j in m;
      var k :| 0 <= k < n && m[k] == j;
      q := q + [k];
    }
  }

  // ----- the greedy matching -----

  /** The first `|m|` left entries have been matched, one to one, and `used` marks their partners. */
  ghost predicate Matched(l: seq<Entry>, r: seq<Entry>, m: seq<nat>, used: seq<bool>) {
    && |l| == |r| == |used| && |m| <= |l|
    && Injection(m, |r|)
    && (forall k :: 0 <= k < |m| ==> SameEntry(false, l[k], r[m[k]]))
    && (forall j :: 0 <= j < |r| ==> (used[j] <==> j in m))
  }

  /** If the next left entry has no unused partner, greed is not to blame: its class has more
      entries on the left than on the right, so no matching exists. */
  lemma StuckMeansNoMatching(l: seq<Entry>, r: seq<Entry>, m: seq<nat>, used: seq<bool>)
    requires Matched(l, r, m, used) && |m| < |l|
    requires forall j :: 0 <= j < |r| ==> used[j] || !SameEntry(false, l[|m|], r[j])
    ensures !exists p, q :: Matching(false, l, r, p, q)
  {
    forall p, q ensures !Matching(false, l, r, p, q) {
      OvercrowdedClass(l, r, m, used, p, q);
    }
  }

  /** The left entries of the stuck entry's class outnumber the right ones. */
  lemma OvercrowdedClass(l: seq<Entry>, r: seq<Entry>, m: seq<nat>, used: seq<bool>, p: seq<nat>, q: seq<nat>)
    requires Matched(l, r, m, used) && |m| < |l|
    requires forall j :: 0 <= j < |r| ==> used[j] || !SameEntry(false, l[|m|], r[j])
    ensures !Matching(false, l, r, p, q)
  {
    var i := |m|;
    var partners := set j | j in Below(|r|) && SameEntry(false, l[i], r[j]);
    var earlier := set k | k in Below(i) && m[k] in partners;
    PartnersAreTaken(l, r, m, used, partners, earlier);
    if Inverse(p, q, |l|) {
      CrowdIsTooLarge(i, m, p, q, partners, earlier, |l|);
    }
    if Matching(false, l, r, p, q) {
      CrowdMapsToPartners(l, r, m, p, q, partners, earlier);
    }
  }

  lemma PartnersAreTaken(l: seq<Entry>, r: seq<Entry>, m: seq<nat>, used: seq<bool>, partners: set<nat>,
                         earlier: set<nat>)
    requires Matched(l, r, m, used) && |m| < |l|
    requires forall j :: 0 <= j < |r| ==> used[j] || !SameEntry(false, l[|m|], r[j])
    requires forall j :: j in partners ==> j < |r| && SameEntry(false, l[|m|], r[j])
    requires forall k: int :: k in earlier <==> 0 <= k < |m| && m[k] in partners
    ensures partners <= Image(earlier, m)
  {
    forall j | j in partners ensures j in Image(earlier, m) {
      assert used[j] && j in m;
      var k :| 0 <= k < |m| && m[k] == j;
      assert k in earlier;
    }
  }

  lemma CrowdIsTooLarge(i: nat, m: seq<nat>, p: seq<nat>, q: seq<nat>, partners: set<nat>, earlier: set<nat>, n: nat)
    requires i == |m| < n && Inverse(p, q, n)
    requires forall k :: k in earlier ==> k < i
    requires partners <= Image(earlier, m)
    ensures !(Image(earlier + {i}, p) <= partners)
  {
    Orders.SubsetSize(partners, Image(earlier, m));
    ImageSize(earlier, m);
    InverseInjective(earlier + {i}, p, q, n);
    ImageSize(earlier + {i}, p);
    if Image(earlier + {i}, p) <= partners {
      Orders.SubsetSize(Image(earlier + {i}, p), partners);
    }
  }

  lemma InverseInjective(s: set<nat>, p: seq<nat>, q: seq<nat>, n: nat)
    requires Inverse(p, q, n) && forall k :: k in s ==> k < n
    ensures InjectiveOn(s, p)
  {
    assert forall k :: k in s ==> q[p[k]] == k;
  }

  lemma CrowdMapsToPartners(l: seq<Entry>, r: seq<Entry>, m: seq<nat>, p: seq<nat>, q: seq<nat>,
                            partners: set<nat>, earlier: set<nat>)
    requires Matching(false, l, r, p, q) && |m| < |l| && Injection(m, |r|)
    requires forall k :: 0 <= k < |m| ==> SameEntry(false, l[k], r[m[k]])
    requires forall j: nat :: j < |r| && SameEntry(false, l[|m|], r[j]) ==> j in partners
    requires forall j :: j in partners ==> j < |r| && SameEntry(false, l[|m|], r[j])
    requires forall k :: k in earlier ==> k < |m| && m[k] in partners
    ensures Image(earlier + {|m|}, p) <= partners
  {
    forall k | k in earlier + {|m|} ensures p[k] in partners {
      assert SameEntry(false, l[k], r[p[k]]);
      if k != |m| {
        assert SameEntry(false, l[k], r[m[k]]) && SameEntry(false, l[|m|], r[m[k]]);
        SameClass(l[k], l[|m|], r[m[k]], r[p[k]]);
      }
    }
  }

  lemma AllMatched(l: seq<Entry>, r: seq<Entry>, m: seq<nat>, used: seq<bool>)
    requires Matched(l, r, m, used) && |m| == |l|
    ensures exists p, q :: Matching(false, l, r, p, q)
  {
    var q := InverseExists(m);
    assert Matching(false, l, r, m, q);
  }

  // ----- the comparison as it runs -----

  /** What reflection guarantees of a value: a nil pointer has no target, any other exactly
      one, and a map whose keys compare by value has no key twice. */
  ghost predicate WellFormed(n: Node)
    decreases n
  {
    match n
    case Indirect(_, isNil, t) => |t| == (if isNil then 0 else 1) && forall i :: 0 <= i < |t| ==> WellFormed(t[i])
    case Struct(_, f) => forall i :: 0 <= i < |f| ==> WellFormed(f[i])
    case List(_, _, e) => forall i :: 0 <= i < |e| ==> WellFormed(e[i])
    case Table(_, byValue, _, e) =>
      && (byValue ==> forall i, j :: 0 <= i < j < |e| ==> e[i].key != e[j].key)
      && forall i :: 0 <= i < |e| ==> WellFormed(e[i].key) && WellFormed(e[i].val)
    case _ => true
  }

  /** `sameDecodedValue` decides the declarative comparison. */
  method SameDecodedValue(left: Node, right: Node) returns (same: bool)
    requires WellFormed(left) && WellFormed(right)
    ensures same == Same(left, right)
    decreases left, 1
  {
    if left.ty != right.ty {
      return false;
    }
    match (left, right) {
      case (Cached(_, _), Cached(_, _)) => return true;
      case (Scalar(_, v), Scalar(_, w)) => return v == w;
      case (Text(_, s), Text(_, t)) => return s == t;
      case (Indirect(_, nl, tl), Indirect(_, nr, tr)) =>
        if nl || nr {
          return nl && nr;
        }
        same := SameDecodedValue(tl[0], tr[0]);
      case (Struct(_, fl), Struct(_, fr)) =>
        same := SameElements(left, fl, fr);
      case (List(_, nl, el), List(_, nr, er)) =>
        if nl != nr {
          return false;
        }
        same := SameElements(left, el, er);
      case (Table(_, bl, nl, el), Table(_, br, nr, er)) =>
        if nl != nr || |el| != |er| || bl != br {
          return false;
        }
        if bl {
          same := SameByKey(left, right);
        } else {
          same := SameByMatching(left, right);
        }
        TablesMatch(left, right);
      case _ => return false;
    }
  }

  method SameElements(owner: Node, l: seq<Node>, r: seq<Node>) returns (same: bool)
    requires forall i :: 0 <= i < |l| ==> l[i] < owner && WellFormed(l[i])
    requires forall i :: 0 <= i < |r| ==> WellFormed(r[i])
    ensures same <==> |l| == |r| && forall i :: 0 <= i < |l| ==> Same(l[i], r[i])
    decreases owner, 0
  {
    if |l| != |r| {
      return false;
    }
    for i := 0 to |l|
      invariant forall k :: 0 <= k < i ==> Same(l[k], r[k])
    {
      var s := SameDecodedValue(l[i], r[i]);
      if !s {
        return false;
      }
    }
    same := true;
  }

  /** Pointer-keyed maps: each left entry takes the first unused right entry that matches. */
  method SameByMatching(left: Node, right: Node) returns (same: bool)
    requires left.Table? && right.Table? && |left.entries| == |right.entries| && !left.byValue && !right.byValue
    requires WellFormed(left) && WellFormed(right)
    ensures same <==> exists p, q :: Matching(false, left.entries, right.entries, p, q)
    decreases left, 0
  {
    var l, r := left.entries, right.entries;
    var used := new bool[|r|](_ => false);
    ghost var m: seq<nat> := [];
    for i := 0 to |l|
      invariant |m| == i && Matched(l, r, m, used[..])
    {
      var matched := false;
      var j := 0;
      while j < |r| && !matched
        invariant 0 <= j <= |r| && !matched
        invariant Matched(l, r, m, used[..]) && |m| == i
        invariant forall k :: 0 <= k < j ==> used[k] || !SameEntry(false, l[i], r[k])
        decreases |r| - j, !matched
      {
        if !used[j] {
          var sameKey := SameDecodedValue(l[i].key, r[j].key);
          if sameKey {
            var sameVal := SameDecodedValue(l[i].val, r[j].val);
            if sameVal {
              MatchOneMore(l, r, m, used[..], j);
              ghost var marks := used[..];
              used[j] := true;
              assert used[..] == marks[j := true];
              m := m + [j];
              matched := true;
              break;
            }
          }
        }
        j := j + 1;
      }
      if !matched {
        StuckMeansNoMatching(l, r, m, used[..]);
        return false;
      }
    }
    AllMatched(l, r, m, used[..]);
    same := true;
  }

  lemma MatchOneMore(l: seq<Entry>, r: seq<Entry>, m: seq<nat>, used: seq<bool>, j: nat)
    requires Matched(l, r, m, used) && |m| < |l| && j < |r| && !used[j] && SameEntry(false, l[|m|], r[j])
    ensures Matched(l, r, m + [j], used[j := true])
  {
  }

  /** Maps keyed by value: look each left key up on the right. */
  method SameByKey(left: Node, right: Node) returns (same: bool)
    requires left.Table? && right.Table? && |left.entries| == |right.entries| && left.byValue && right.byValue
    requires WellFormed(left) && WellFormed(right)
    ensures same <==> exists p, q :: Matching(true, left.entries, right.entries, p, q)
    decreases left, 0
  {
    var l, r := left.entries, right.entries;
    ghost var m: seq<nat> := [];
    for i := 0 to |l|
      invariant |m| == i
      invariant forall k :: 0 <= k < i ==> m[k] < |r| && SameEntry(true, l[k], r[m[k]])
    {
      var found := Lookup(r, l[i].key);
      if found < |r| {
        var sameVal := SameDecodedValue(l[i].val, r[found].val);
        if sameVal {
          m := m + [found];
          continue;
        }
      }
      MissingKey(l, r, i, found);
      return false;
    }
    forall k, n | 0 <= k < n < |m| ensures m[k] != m[n] {
      assert SameEntry(true, l[k], r[m[k]]) && SameEntry(true, l[n], r[m[n]]);
    }
    ghost var q := InverseExists(m);
    assert Matching(true, l, r, m, q);
    same := true;
  }

  /** A left entry without an equal right entry under the same key rules out every matching. */
  lemma MissingKey(l: seq<Entry>, r: seq<Entry>, i: nat, found: nat)
    requires i < |l| && found <= |r|
    requires forall k :: 0 <= k < |r| && r[k].key == l[i].key ==> k == found
    requires found < |r| ==> !Same(l[i].val, r[found].val)
    ensures !exists p, q :: Matching(true, l, r, p, q)
  {
    forall p, q ensures !Matching(true, l, r, p, q) {
      if |l| == |r| && Inverse(p, q, |l|) {
        assert !SameEntry(true, l[i], r[p[i]]);
      }
    }
  }

  /** `MapIndex`: the position of the entry with this key, or the length. */
  method Lookup(entries: seq<Entry>, key: Node) returns (found: nat)
    ensures found <= |entries| && (found < |entries| ==> entries[found].key == key)
    ensures forall k :: 0 <= k < found ==> entries[k].key != key
  {
    found := 0;
    while found < |entries| && entries[found].key != key
      invariant found <= |entries|
      invariant forall k :: 0 <= k < found ==> entries[k].key != key
    {
      found := found + 1;
    }
  }
}
