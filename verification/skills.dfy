/** Skill lists as the application handles them: a comma-separated field is
    split, every piece trimmed and blank pieces dropped; a list is written
    back joined by ", ". The same cleaning appears in app/preprocess.py
    (the `skills` field of a job) and app/portfolio.py (`query_links`). */
module Skills {
  import opened Text
  import opened Seqs

  predicate NonBlank(s: string) {
    |s| > 0
  }

  /** `[s.strip() for s in xs if s.strip()]` */
  function CleanSkills(xs: seq<string>): (r: seq<string>)
    ensures |r| <= |xs|
    ensures forall i :: 0 <= i < |r| ==> |r[i]| > 0 && Trimmed(r[i])
  {
    Filter(NonBlank, Map(Strip, xs))
  }

  /** Cleaning works piece by piece: the cleaning of a concatenation is the
      concatenation of the cleanings, so the input order is kept. */
  lemma CleanSkillsConcat(a: seq<string>, b: seq<string>)
    ensures CleanSkills(a + b) == CleanSkills(a) + CleanSkills(b)
  {
    MapConcat(Strip, a, b);
    FilterConcat(NonBlank, Map(Strip, a), Map(Strip, b));
  }

  /** A piece is kept, trimmed, exactly when it is not all whitespace. */
  lemma CleanSkillsOne(x: string)
    ensures AllSpace(x) ==> CleanSkills([x]) == []
    ensures !AllSpace(x) ==> CleanSkills([x]) == [Strip(x)]
  {
    StripEmpty(x);
    assert Map(Strip, [x]) == [Strip(x)];
  }

  /** `[s.strip() for s in field.split(',') if s.strip()]` */
  function SplitSkills(field: string): (r: seq<string>)
    ensures forall i :: 0 <= i < |r| ==> |r[i]| > 0 && Trimmed(r[i]) && ',' !in r[i]
  {
    var pieces := Split(field, ',');
    var r := CleanSkills(pieces);
    forall i | 0 <= i < |r| ensures ',' !in r[i] {
      var j :| 0 <= j < |Map(Strip, pieces)| && Map(Strip, pieces)[j] == r[i];
      StripPreserves(pieces[j], NotComma);
    }
    r
  }

  predicate NotComma(c: char) {
    c != ','
  }

  /** `", ".join(xs)` */
  function JoinSkills(xs: seq<string>): string {
    Join(", ", xs)
  }

  /** A skill as `SplitSkills` produces it: non-empty, trimmed, no comma. */
  predicate IsSkill(s: string) {
    |s| > 0 && Trimmed(s) && ',' !in s
  }

  lemma IndexOfFirst(s: string, c: char, k: int)
    requires 0 <= k < |s| && s[k] == c
    requires forall i :: 0 <= i < k ==> s[i] != c
    ensures IndexOf(s, c) == k
  {
  }

  /** Splitting at the first separator. */
  lemma SplitCons(a: string, c: char, b: string)
    requires c !in a
    ensures Split(a + [c] + b, c) == [a] + Split(b, c)
  {
    var s := a + [c] + b;
    IndexOfFirst(s, c, |a|);
    assert s[..|a|] == a;
    assert s[|a| + 1..] == b;
  }

  lemma SplitNoSeparator(a: string, c: char)
    requires c !in a
    ensures Split(a, c) == [a]
  {
    assert IndexOf(a, c) == |a|;
  }

  lemma {:induction false} StripStartSpacePrefix(p: string, x: string)
    requires AllSpace(p) && (|x| == 0 || !IsSpace(x[0]))
    ensures StripStart(p + x) == x
    decreases |p|
  {
    if |p| > 0 {
      assert (p + x)[1..] == p[1..] + x;
      StripStartSpacePrefix(p[1..], x);
    } else {
      assert p + x == x;
    }
  }

  /** Leading whitespace before a trimmed word is all `strip()` removes. */
  lemma StripSpacePrefix(p: string, x: string)
    requires AllSpace(p) && |x| > 0 && Trimmed(x)
    ensures Strip(p + x) == x
  {
    StripStartSpacePrefix(p, x);
  }

  /** A skill behind some blanks holds no comma and cleans to itself. */
  lemma PaddedSkill(p: string, x: string)
    requires AllSpace(p) && IsSkill(x)
    ensures ',' !in p + x
    ensures CleanSkills([p + x]) == [x]
  {
    forall i | 0 <= i < |p| ensures p[i] != ',' {
      assert IsSpace(p[i]);
    }
    StripSpacePrefix(p, x);
    assert !IsSpace((p + x)[|p|]);
    CleanSkillsOne(p + x);
  }

  lemma JoinSkillsCons(p: string, xs: seq<string>)
    requires |xs| > 1
    ensures p + JoinSkills(xs) == (p + xs[0]) + [','] + (" " + JoinSkills(xs[1..]))
  {
    JoinCons(", ", xs[0], xs[1..]);
    assert xs == [xs[0]] + xs[1..];
  }

  /** The first comma of a joined list ends the first skill. */
  lemma SplitJoinSkillsCons(p: string, xs: seq<string>)
    requires AllSpace(p) && |xs| > 1 && IsSkill(xs[0])
    ensures Split(p + JoinSkills(xs), ',') == [p + xs[0]] + Split(" " + JoinSkills(xs[1..]), ',')
  {
    PaddedSkill(p, xs[0]);
    JoinSkillsCons(p, xs);
    SplitCons(p + xs[0], ',', " " + JoinSkills(xs[1..]));
  }

  lemma CleanSkillsCons(a: string, xs: seq<string>, pieces: seq<string>)
    requires |xs| > 0
    requires CleanSkills([a]) == [xs[0]]
    requires CleanSkills(pieces) == xs[1..]
    ensures CleanSkills([a] + pieces) == xs
  {
    CleanSkillsConcat([a], pieces);
    assert xs == [xs[0]] + xs[1..];
  }

  /** The heart of the round trip: each piece after the first carries the
      blank of the ", " separator, which `strip()` removes again. */
  lemma {:induction false} SplitJoinSkills(p: string, xs: seq<string>)
    requires AllSpace(p) && |xs| > 0
    requires forall i :: 0 <= i < |xs| ==> IsSkill(xs[i])
    ensures CleanSkills(Split(p + JoinSkills(xs), ',')) == xs
    decreases |xs|
  {
    if |xs| == 1 {
      PaddedSkill(p, xs[0]);
      SplitNoSeparator(p + xs[0], ',');
    } else {
      SplitJoinSkillsCons(p, xs);
      assert AllSpace(" ") by { assert " "[0] == ' '; }
      assert forall i :: 0 <= i < |xs[1..]| ==> IsSkill(xs[1..][i]) by {
        forall i | 0 <= i < |xs[1..]| ensures IsSkill(xs[1..][i]) {
          assert xs[1..][i] == xs[i + 1];
        }
      }
      SplitJoinSkills(" ", xs[1..]);
      PaddedSkill(p, xs[0]);
      CleanSkillsCons(p + xs[0], xs, Split(" " + JoinSkills(xs[1..]), ','));
    }
  }

  /** Splitting a joined skill list gives the skills back. */
  lemma SplitSkillsJoin(xs: seq<string>)
    requires forall i :: 0 <= i < |xs| ==> IsSkill(xs[i])
    ensures SplitSkills(JoinSkills(xs)) == xs
  {
    if |xs| == 0 {
      SplitNoSeparator("", ',');
      CleanSkillsOne("");
    } else {
      SplitJoinSkills("", xs);
      assert "" + JoinSkills(xs) == JoinSkills(xs);
    }
  }
}
