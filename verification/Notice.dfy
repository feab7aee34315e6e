/** Which findings a notice may accept: restrictNoticeFindings matches the findings of today with
    those of an earlier commit, one for one, and keeps a group of equal baseline keys only when every
    finding of the group has its match. */
module Notice {
  import opened Options

  const DIGEST_LENGTH := 64

  /** How findings are told apart: the baseline key of a finding, the digest of the source around it
      if that can be read, and whether the rule is about whole files. */
  datatype Sources = Sources(key: string -> string, digest: string -> Option<string>, wholeFile: bool) {
    ghost predicate Valid() {
      forall f :: digest(f).Some? ==> |digest(f).value| == DIGEST_LENGTH
    }

    /** noticeFindingIdentity. */
    function Identity(finding: string): Option<string> {
      if wholeFile then Some(key(finding))
      else match digest(finding)
        case None => None
        case Some(d) => Some(key(finding) + ['\0'] + d)
    }
  }

  /** Findings with the same identity have the same baseline key. */
  lemma IdentityHasKey(src: Sources, f: string, g: string)
    requires src.Valid() && src.Identity(f).Some? && src.Identity(f) == src.Identity(g)
    ensures src.key(f) == src.key(g)
  {
    if !src.wholeFile {
      var x, y := src.key(f), src.key(g);
      var d, e := src.digest(f).value, src.digest(g).value;
      assert x + ['\0'] + d == y + ['\0'] + e;
      assert |x| == |y|;
      assert (x + ['\0'] + d)[..|x|] == x && (y + ['\0'] + e)[..|y|] == y;
    }
  }

  /** A finding has no identity exactly when its source must be read and cannot be; two findings share one if and only
      if they share the baseline key and, unless the rule is about whole files, the digest. */
  lemma IdentityIff(src: Sources, f: string, g: string)
    requires src.Valid()
    ensures src.Identity(f).None? <==> !src.wholeFile && src.digest(f).None?
    ensures src.Identity(f).Some? && src.Identity(g).Some? ==>
              (src.Identity(f) == src.Identity(g) <==>
               src.key(f) == src.key(g) && (!src.wholeFile ==> src.digest(f) == src.digest(g)))
  {
    if src.Identity(f).Some? && src.Identity(f) == src.Identity(g) {
      IdentityHasKey(src, f, g);
      if !src.wholeFile {
        var d, e := src.digest(f).value, src.digest(g).value;
        assert (src.key(f) + ['\0'] + d)[|src.key(f)| + 1..] == d && (src.key(g) + ['\0'] + e)[|src.key(g)| + 1..] == e;
      }
    }
  }

  // ---------- Counting ----------

  function Times<T(==)>(list: seq<T>, x: T): (n: nat)
    ensures n > 0 <==> x in list
  {
    if list == [] then 0
    else Times(list[..|list| - 1], x) + if list[|list| - 1] == x then 1 else 0
  }

  lemma {:induction false} TimesSnoc<T>(list: seq<T>, y: T, x: T)
    ensures Times(list + [y], x) == Times(list, x) + if y == x then 1 else 0
  {
    assert (list + [y])[..|list|] == list;
  }

  lemma {:induction false} TimesConcat<T>(a: seq<T>, b: seq<T>, x: T)
    ensures Times(a + b, x) == Times(a, x) + Times(b, x)
    decreases |b|
  {
    if b == [] {
      assert a + b == a;
    } else {
      var n := |b| - 1;
      assert (a + b)[..|a + b| - 1] == a + b[..n];
      TimesConcat(a, b[..n], x);
    }
  }

  lemma {:induction false} TimesPrefix<T>(list: seq<T>, k: nat, x: T)
    requires k <= |list|
    ensures Times(list[..k], x) <= Times(list, x)
  {
    assert list == list[..k] + list[k..];
    TimesConcat(list[..k], list[k..], x);
  }

  /** The last occurrence has counted all of them. */
  lemma {:induction false} LastOccurrence<T>(list: seq<T>, x: T) returns (j: nat)
    requires x in list
    ensures j < |list| && list[j] == x && Times(list[..j + 1], x) == Times(list, x)
    decreases |list|
  {
    var n := |list| - 1;
    if list[n] == x {
      j := n;
      assert list[..n + 1] == list;
    } else {
      j := LastOccurrence(list[..n], x);
      assert list[..n][..j + 1] == list[..j + 1];
    }
  }

  // ---------- What may be accepted ----------

  ghost predicate AllIdentified(src: Sources, findings: seq<string>) {
    forall f :: f in findings ==> src.Identity(f).Some?
  }

  function Identities(src: Sources, findings: seq<string>): (ids: seq<string>)
    requires forall f :: f in findings ==> src.Identity(f).Some?
    ensures |ids| == |findings|
    ensures forall i :: 0 <= i < |ids| ==> ids[i] == src.Identity(findings[i]).value
  {
    seq(|findings|, i requires 0 <= i < |findings| => src.Identity(findings[i]).value)
  }

  /** Every finding of the same baseline key occurs today at most as often as it did before. */
  ghost predicate Acceptable(src: Sources, current: seq<string>, historical: seq<string>, finding: string)
    requires AllIdentified(src, current)
  {
    forall g :: g in current && src.key(g) == src.key(finding) ==>
      Times(Identities(src, current), src.Identity(g).value) <= Times(historical, src.Identity(g).value)
  }

  /** The finding `j` is one too many. */
  predicate TooMany(ids: seq<string>, historical: seq<string>, j: nat)
    requires j < |ids|
  {
    Times(ids[..j + 1], ids[j]) > Times(historical, ids[j])
  }

  ghost predicate Rejects(src: Sources, current: seq<string>, ids: seq<string>, historical: seq<string>, j: int,
                          key: string) {
    0 <= j < |ids| && j < |current| && src.key(current[j]) == key && TooMany(ids, historical, j)
  }

  /** The keys that the loop has rejected over the findings with the identities `ids`. */
  ghost predicate RejectedBy(src: Sources, current: seq<string>, ids: seq<string>, historical: seq<string>,
                             rejected: set<string>) {
    forall key :: key in rejected <==> exists j :: Rejects(src, current, ids, historical, j, key)
  }

  lemma RejectedIsUnacceptable(src: Sources, current: seq<string>, historical: seq<string>, rejected: set<string>,
                               f: string)
    requires src.Valid() && AllIdentified(src, current)
    requires RejectedBy(src, current, Identities(src, current), historical, rejected)
    ensures src.key(f) in rejected <==> !Acceptable(src, current, historical, f)
  {
    var ids := Identities(src, current);
    if src.key(f) in rejected {
      var j :| Rejects(src, current, ids, historical, j, src.key(f));
      TimesPrefix(ids, j + 1, ids[j]);
      assert current[j] in current;
    }
    if !Acceptable(src, current, historical, f) {
      var g :| g in current && src.key(g) == src.key(f) && Times(ids, src.Identity(g).value) > Times(historical, src.Identity(g).value);
      var x :| 0 <= x < |current| && current[x] == g;
      assert ids[x] == src.Identity(g).value;
      var j := LastOccurrence(ids, ids[x]);
      assert current[j] in current;
      IdentityHasKey(src, current[j], g);
      assert Rejects(src, current, ids, historical, j, src.key(f));
    }
  }

  // ---------- The method ----------

  function Get(m: map<string, nat>, key: string): nat {
    if key in m then m[key] else 0
  }

  method Count(historical: seq<string>) returns (accepted: map<string, nat>)
    ensures forall i :: Get(accepted, i) == Times(historical, i)
  {
    accepted := map[];
    for k := 0 to |historical|
      invariant forall i :: Get(accepted, i) == Times(historical[..k], i)
    {
      assert historical[..k + 1][..k] == historical[..k];
      accepted := accepted[historical[k] := Get(accepted, historical[k]) + 1];
    }
    assert historical[..|historical|] == historical;
  }

  /** What is left of the earlier findings once those of today so far are matched. */
  ghost predicate Left(accepted: map<string, nat>, historical: seq<string>, seen: seq<string>) {
    forall i :: Get(accepted, i) ==
      if Times(historical, i) >= Times(seen, i) then Times(historical, i) - Times(seen, i) else 0
  }

  lemma LeftStep(accepted: map<string, nat>, historical: seq<string>, seen: seq<string>, i: string)
    requires Left(accepted, historical, seen)
    ensures Get(accepted, i) == 0 ==> Left(accepted, historical, seen + [i])
    ensures Get(accepted, i) > 0 ==> Left(accepted[i := Get(accepted, i) - 1], historical, seen + [i])
    ensures TooMany(seen + [i], historical, |seen|) <==> Get(accepted, i) == 0
  {
    forall x
      ensures Times(seen + [i], x) == Times(seen, x) + if x == i then 1 else 0
    {
      TimesSnoc(seen, i, x);
    }
    assert (seen + [i])[..|seen| + 1] == seen + [i];
  }

  lemma SameRejects(src: Sources, current: seq<string>, seen: seq<string>, i: string, historical: seq<string>, j: int,
                    key: string)
    requires |seen| < |current|
    ensures Rejects(src, current, seen + [i], historical, j, key) <==>
            Rejects(src, current, seen, historical, j, key) ||
            (j == |seen| && src.key(current[j]) == key && TooMany(seen + [i], historical, j))
  {
    if 0 <= j < |seen| {
      assert (seen + [i])[..j + 1] == seen[..j + 1];
    }
  }

  lemma RejectedStep(src: Sources, current: seq<string>, seen: seq<string>, i: string, historical: seq<string>,
                     keys: set<string>)
    requires |seen| < |current| && RejectedBy(src, current, seen, historical, keys)
    ensures RejectedBy(src, current, seen + [i], historical,
                       if TooMany(seen + [i], historical, |seen|) then keys + {src.key(current[|seen|])} else keys)
  {
    var now, k := seen + [i], |seen|;
    var after := if TooMany(now, historical, k) then keys + {src.key(current[k])} else keys;
    forall key
      ensures key in after <==> exists j :: Rejects(src, current, now, historical, j, key)
    {
      SameRejects(src, current, seen, i, historical, k, key);
      if key in keys {
        var j :| Rejects(src, current, seen, historical, j, key);
        SameRejects(src, current, seen, i, historical, j, key);
      }
      if j :| Rejects(src, current, now, historical, j, key) {
        SameRejects(src, current, seen, i, historical, j, key);
      }
    }
  }

  /** What the loop over today's findings knows after the findings with the identities `seen`. */
  ghost predicate Matching(src: Sources, current: seq<string>, historical: seq<string>, seen: seq<string>,
                           accepted: map<string, nat>, keys: set<string>) {
    && |seen| <= |current| && (forall j :: 0 <= j < |seen| ==> src.Identity(current[j]) == Some(seen[j]))
    && Left(accepted, historical, seen) && RejectedBy(src, current, seen, historical, keys)
  }

  lemma MatchingStep(src: Sources, current: seq<string>, historical: seq<string>, seen: seq<string>,
                     accepted: map<string, nat>, keys: set<string>, i: string)
    requires Matching(src, current, historical, seen, accepted, keys)
    requires |seen| < |current| && src.Identity(current[|seen|]) == Some(i)
    ensures if Get(accepted, i) == 0
            then Matching(src, current, historical, seen + [i], accepted, keys + {src.key(current[|seen|])})
            else Matching(src, current, historical, seen + [i], accepted[i := Get(accepted, i) - 1], keys)
  {
    LeftStep(accepted, historical, seen, i);
    RejectedStep(src, current, seen, i, historical, keys);
  }

  /** The loop over today's findings: uses up the accepted counts and rejects the keys of what is left. */
  method Reject(src: Sources, current: seq<string>, historical: seq<string>) returns (rejected: Option<set<string>>)
    ensures rejected.None? <==> !AllIdentified(src, current)
    ensures rejected.Some? ==> RejectedBy(src, current, Identities(src, current), historical, rejected.value)
  {
    var accepted := Count(historical);
    var keys: set<string> := {};
    ghost var seen: seq<string> := [];
    for k := 0 to |current|
      invariant |seen| == k && Matching(src, current, historical, seen, accepted, keys)
    {
      var identity := src.Identity(current[k]);
      if identity.None? {
        assert current[k] in current;
        return None;
      }
      var i := identity.value;
      MatchingStep(src, current, historical, seen, accepted, keys, i);
      seen := seen + [i];
      if Get(accepted, i) == 0 {
        keys := keys + {src.key(current[k])};
        continue;
      }
      accepted := accepted[i := accepted[i] - 1];
    }
    assert AllIdentified(src, current);
    assert seen == Identities(src, current);
    return Some(keys);
  }

  /** The findings that pass, in order. */
  ghost function Filtered(findings: seq<string>, keep: set<string>): (kept: seq<string>)
    ensures forall f :: f in kept <==> f in findings && f in keep
  {
    if findings == [] then []
    else
      var n := |findings| - 1;
      Filtered(findings[..n], keep) + if findings[n] in keep then [findings[n]] else []
  }

  ghost function AcceptableOf(src: Sources, current: seq<string>, historical: seq<string>): set<string>
    requires AllIdentified(src, current)
  {
    set f | f in current && Acceptable(src, current, historical, f)
  }

  /** restrictNoticeFindings, on the findings of today and the identities of the earlier commit. */
  method RestrictNoticeFindings(src: Sources, current: seq<string>,
                                historical: seq<string>) returns (kept: Option<seq<string>>)
    requires src.Valid()
    ensures kept.None? <==> !AllIdentified(src, current)
    ensures kept.Some? ==> kept.value == Filtered(current, AcceptableOf(src, current, historical))
  {
    var rejected := Reject(src, current, historical);
    if rejected.None? {
      return None;
    }
    ghost var keep := AcceptableOf(src, current, historical);
    var list: seq<string> := [];
    for k := 0 to |current|
      invariant list == Filtered(current[..k], keep)
    {
      assert current[k] in current && current[..k + 1][..k] == current[..k];
      RejectedIsUnacceptable(src, current, historical, rejected.value, current[k]);
      if src.key(current[k]) !in rejected.value {
        list := list + [current[k]];
      }
    }
    assert current[..|current|] == current;
    return Some(list);
  }

  // ---------- What the acceptance means ----------

  lemma {:induction false} FilteredTimes(findings: seq<string>, keep: set<string>, f: string)
    ensures Times(Filtered(findings, keep), f) == if f in keep then Times(findings, f) else 0
  {
    if findings != [] {
      var n := |findings| - 1;
      FilteredTimes(findings[..n], keep, f);
      TimesSnoc(Filtered(findings[..n], keep), findings[n], f);
      if findings[n] !in keep {
        assert Filtered(findings, keep) == Filtered(findings[..n], keep);
      }
    }
  }

  lemma IdentitiesSnoc(src: Sources, findings: seq<string>)
    requires findings != [] && AllIdentified(src, findings)
    ensures var n := |findings| - 1;
            && AllIdentified(src, findings[..n]) && src.Identity(findings[n]).Some?
            && Identities(src, findings) == Identities(src, findings[..n]) + [src.Identity(findings[n]).value]
  {
    assert findings[|findings| - 1] in findings;
  }

  lemma {:induction false} FilteredIdentities(src: Sources, findings: seq<string>, keep: set<string>, i: string)
    requires AllIdentified(src, findings)
    ensures AllIdentified(src, Filtered(findings, keep))
    ensures Times(Identities(src, Filtered(findings, keep)), i) <= Times(Identities(src, findings), i)
    decreases |findings|
  {
    if findings != [] {
      var n := |findings| - 1;
      IdentitiesSnoc(src, findings);
      TimesSnoc(Identities(src, findings[..n]), src.Identity(findings[n]).value, i);
      FilteredIdentities(src, findings[..n], keep, i);
      var kept := Filtered(findings, keep);
      if findings[n] in keep {
        IdentitiesSnoc(src, kept);
        assert kept[..|kept| - 1] == Filtered(findings[..n], keep);
        TimesSnoc(Identities(src, kept[..|kept| - 1]), src.Identity(findings[n]).value, i);
      } else {
        assert kept == Filtered(findings[..n], keep);
      }
    }
  }

  /** The kept findings match, one for one, findings of the earlier commit. */
  lemma {:induction false} KeptMatchesHistory(src: Sources, current: seq<string>, historical: seq<string>, i: string)
    requires src.Valid() && AllIdentified(src, current)
    ensures var kept := Filtered(current, AcceptableOf(src, current, historical));
            AllIdentified(src, kept) && Times(Identities(src, kept), i) <= Times(historical, i)
  {
    var keep := AcceptableOf(src, current, historical);
    var kept := Filtered(current, keep);
    FilteredIdentities(src, current, keep, i);
    var ids := Identities(src, kept);
    if i in ids {
      var x :| 0 <= x < |ids| && ids[x] == i;
      assert kept[x] in kept;
    }
  }

  // ---------- The order of the findings ----------

  ghost predicate Permuted(a: seq<string>, b: seq<string>) {
    forall f :: Times(a, f) == Times(b, f)
  }

  lemma SameMembers(a: seq<string>, b: seq<string>, f: string)
    requires Permuted(a, b)
    ensures f in a <==> f in b
  {
    assert Times(a, f) == Times(b, f);
  }

  lemma {:induction false} WithoutOne(a: seq<string>, f: string, b: seq<string>, x: string)
    ensures Times(a + [f] + b, x) == Times(a + b, x) + if x == f then 1 else 0
  {
    TimesConcat(a + [f], b, x);
    TimesSnoc(a, f, x);
    TimesConcat(a, b, x);
  }

  lemma IdentitiesParts(src: Sources, a: seq<string>, f: string, b: seq<string>)
    requires AllIdentified(src, a) && AllIdentified(src, b) && src.Identity(f).Some?
    ensures AllIdentified(src, a + [f] + b) && AllIdentified(src, a + b)
    ensures Identities(src, a + [f] + b) == Identities(src, a) + [src.Identity(f).value] + Identities(src, b)
    ensures Identities(src, a + b) == Identities(src, a) + Identities(src, b)
  {
  }

  lemma {:induction false} WithoutOneIdentity(src: Sources, a: seq<string>, f: string, b: seq<string>, i: string)
    requires AllIdentified(src, a) && AllIdentified(src, b) && src.Identity(f).Some?
    ensures AllIdentified(src, a + [f] + b) && AllIdentified(src, a + b)
    ensures Times(Identities(src, a + [f] + b), i) == Times(Identities(src, a + b), i) + if i == src.Identity(f).value then 1 else 0
  {
    IdentitiesParts(src, a, f, b);
    var x, y, z := Identities(src, a), src.Identity(f).value, Identities(src, b);
    WithoutOne(x, y, z, i);
  }

  lemma {:induction false} SameIdentities(src: Sources, a: seq<string>, b: seq<string>, i: string)
    requires Permuted(a, b) && AllIdentified(src, a) && AllIdentified(src, b)
    ensures Times(Identities(src, a), i) == Times(Identities(src, b), i)
    decreases |a|
  {
    if a == [] {
      if b != [] {
        SameMembers(a, b, b[0]);
      }
    } else {
      var n := |a| - 1;
      var f := a[n];
      assert Times(a, f) == Times(b, f);
      var x :| 0 <= x < |b| && b[x] == f;
      var p, q := b[..x], b[x + 1..];
      assert b == p + [f] + q && a == a[..n] + [f];
      forall g
        ensures Times(a[..n], g) == Times(p + q, g)
      {
        TimesSnoc(a[..n], f, g);
        WithoutOne(p, f, q, g);
        assert Times(a, g) == Times(b, g);
      }
      IdentitiesSnoc(src, a);
      TimesSnoc(Identities(src, a[..n]), src.Identity(f).value, i);
      assert forall g :: g in p ==> g in b;
      assert forall g :: g in q ==> g in b;
      WithoutOneIdentity(src, p, f, q, i);
      SameIdentities(src, a[..n], p + q, i);
    }
  }

  lemma SameAcceptable(src: Sources, a: seq<string>, b: seq<string>, historical: seq<string>, f: string)
    requires Permuted(a, b) && AllIdentified(src, a) && AllIdentified(src, b)
    requires Acceptable(src, a, historical, f)
    ensures Acceptable(src, b, historical, f)
  {
    forall g | g in b && src.key(g) == src.key(f)
      ensures Times(Identities(src, b), src.Identity(g).value) <= Times(historical, src.Identity(g).value)
    {
      SameMembers(a, b, g);
      SameIdentities(src, a, b, src.Identity(g).value);
    }
  }

  /** Which findings are kept does not depend on the order in which they come. */
  lemma {:induction false} OrderDoesNotMatter(src: Sources, a: seq<string>, b: seq<string>, historical: seq<string>)
    requires Permuted(a, b) && AllIdentified(src, a) && AllIdentified(src, b)
    ensures Permuted(Filtered(a, AcceptableOf(src, a, historical)), Filtered(b, AcceptableOf(src, b, historical)))
  {
    var keep, other := AcceptableOf(src, a, historical), AcceptableOf(src, b, historical);
    forall f
      ensures Times(Filtered(a, keep), f) == Times(Filtered(b, other), f)
    {
      FilteredTimes(a, keep, f);
      FilteredTimes(b, other, f);
      SameMembers(a, b, f);
      assert Times(a, f) == Times(b, f);
      if f in a {
        if Acceptable(src, a, historical, f) {
          SameAcceptable(src, a, b, historical, f);
        }
        if Acceptable(src, b, historical, f) {
          SameAcceptable(src, b, a, historical, f);
        }
      }
    }
  }
}
