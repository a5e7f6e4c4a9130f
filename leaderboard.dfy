/** The referral leaderboard: count the registrations per non-empty referral code and rank
    the codes by that count, highest first. */
module ReferralLeaderboard {
  import opened Wrappers
  import opened Models

  /** Number of users whose referral code is `code`. */
  function Occurrences(users: seq<UserInput>, code: string): nat {
    if users == [] then 0
    else Occurrences(users[..|users| - 1], code) + (if users[|users| - 1].referralCode == code then 1 else 0)
  }

  /** Number of users who gave a referral code at all. */
  function Referred(users: seq<UserInput>): nat {
    if users == [] then 0
    else Referred(users[..|users| - 1]) + (if users[|users| - 1].referralCode != "" then 1 else 0)
  }

  /** The non-empty referral codes that occur among the users. */
  ghost function UsedCodes(users: seq<UserInput>): set<string> {
    set u | u in users && u.referralCode != "" :: u.referralCode
  }

  /** The counted pairs: each used code with the number of users carrying it. */
  ghost function Counted(users: seq<UserInput>): set<ReferralScore> {
    set code | code in UsedCodes(users) :: ReferralScore(code, Occurrences(users, code))
  }

  /** Scores never increase from one row to the next. */
  predicate SortedByScoreDesc(s: seq<ReferralScore>) {
    forall i, j :: 0 <= i < j < |s| ==> s[i].score >= s[j].score
  }

  /** `lb` is a leaderboard of `users`: the counted pairs, each exactly once, in some order
      with the scores running from highest to lowest. Rows with equal scores may come in any
      order. */
  ghost predicate IsLeaderboardOf(lb: seq<ReferralScore>, users: seq<UserInput>) {
    SortedByScoreDesc(lb) && multiset(lb) == multiset(Counted(users))
  }

  /** The codes of the rows of a leaderboard. */
  ghost function CodesOf(lb: seq<ReferralScore>): set<string> {
    set e | e in lb :: e.referralCode
  }

  /** Sum of the scores of the rows. */
  function ScoreSum(lb: seq<ReferralScore>): int {
    if lb == [] then 0 else ScoreSum(lb[..|lb| - 1]) + lb[|lb| - 1].score
  }

  /** A non-empty code is counted at least once exactly when some user carries it. */
  lemma {:induction false} OccurrencesPositive(users: seq<UserInput>, code: string)
    requires code != ""
    ensures Occurrences(users, code) > 0 <==> code in UsedCodes(users)
  {
    if users != [] {
      var init := users[..|users| - 1];
      var last := users[|users| - 1];
      OccurrencesPositive(init, code);
      assert users == init + [last];
      assert UsedCodes(users) == UsedCodes(init) + (if last.referralCode != "" then {last.referralCode} else {});
    }
  }

  /** Appending one user adds that user's code, if non-empty, to the used codes. */
  lemma UsedCodesAppend(users: seq<UserInput>, u: UserInput)
    ensures UsedCodes(users + [u]) == UsedCodes(users) + (if u.referralCode != "" then {u.referralCode} else {})
  {
  }

  /** The first loop of the handler: a map from each non-empty referral code to the number
      of users carrying it; a user without a code is skipped. */
  method CountReferrals(users: seq<UserInput>) returns (counts: map<string, int>)
    ensures counts.Keys == UsedCodes(users)
    ensures forall code :: code in counts ==> counts[code] == Occurrences(users, code)
  {
    counts := map[];
    for i := 0 to |users|
      invariant counts.Keys == UsedCodes(users[..i])
      invariant forall code :: code in counts ==> counts[code] == Occurrences(users[..i], code)
    {
      var u := users[i];
      assert users[..i + 1] == users[..i] + [u];
      UsedCodesAppend(users[..i], u);
      if u.referralCode != "" {
        if u.referralCode !in counts {
          OccurrencesPositive(users[..i], u.referralCode);
        }
        // a missing key counts from zero
        counts := counts[u.referralCode := (if u.referralCode in counts then counts[u.referralCode] else 0) + 1];
      }
    }
    assert users[..|users|] == users;
  }

  /** The rows for the keys `keys` of a count map. */
  ghost function Rows(counts: map<string, int>, keys: set<string>): set<ReferralScore>
    requires keys <= counts.Keys
  {
    set code | code in keys :: ReferralScore(code, counts[code])
  }

  /** The second loop of the handler: one row per entry of the count map, in whichever
      order the map is traversed. */
  method Flatten(counts: map<string, int>) returns (rows: seq<ReferralScore>)
    ensures multiset(rows) == multiset(Rows(counts, counts.Keys))
  {
    rows := [];
    var rest := counts.Keys;
    while rest != {}
      invariant rest <= counts.Keys
      invariant multiset(rows) == multiset(Rows(counts, counts.Keys - rest))
      decreases rest
    {
      var code :| code in rest;
      var row := ReferralScore(code, counts[code]);
      var done := counts.Keys - rest;
      assert Rows(counts, done + {code}) == Rows(counts, done) + {row};
      assert row !in Rows(counts, done);
      rows := rows + [row];
      rest := rest - {code};
      assert counts.Keys - rest == done + {code};
    }
  }

  /** Exchanges two neighbouring rows. */
  method SwapWithPrevious(a: array<ReferralScore>, j: int)
    requires 0 < j < a.Length
    modifies a
    ensures a[j - 1] == old(a[j]) && a[j] == old(a[j - 1])
    ensures forall k :: 0 <= k < a.Length && k != j - 1 && k != j ==> a[k] == old(a[k])
    ensures multiset(a[..]) == multiset(old(a[..]))
  {
    a[j - 1], a[j] := a[j], a[j - 1];
  }

  /** One step of the sort: given rows a[..i] in order, moves a[i] left past the rows with
      a lower score, so that a[..i + 1] is in order. */
  method InsertRow(a: array<ReferralScore>, i: int)
    requires 0 <= i < a.Length
    requires SortedByScoreDesc(a[..i])
    modifies a
    ensures SortedByScoreDesc(a[..i + 1])
    ensures multiset(a[..]) == multiset(old(a[..]))
    ensures forall k :: i < k < a.Length ==> a[k] == old(a[k])
  {
    var j := i;
    while j > 0 && a[j - 1].score < a[j].score
      invariant 0 <= j <= i
      invariant forall p, q :: 0 <= p < q <= i && p != j && q != j ==> a[p].score >= a[q].score
      invariant forall q :: j < q <= i ==> a[j].score > a[q].score
      invariant multiset(a[..]) == multiset(old(a[..]))
      invariant forall k :: i < k < a.Length ==> a[k] == old(a[k])
    {
      SwapWithPrevious(a, j);
      j := j - 1;
    }
  }

  /** Sorts the rows in place so that the scores run from highest to lowest. The result is
      a permutation of the input; the order among equal scores is not specified. */
  method SortByScoreDesc(a: array<ReferralScore>)
    modifies a
    ensures SortedByScoreDesc(a[..])
    ensures multiset(a[..]) == multiset(old(a[..]))
  {
    for i := 0 to a.Length
      invariant SortedByScoreDesc(a[..i])
      invariant multiset(a[..]) == multiset(old(a[..]))
    {
      InsertRow(a, i);
    }
    assert a[..a.Length] == a[..];
  }

  /** The handler: list the users, count their referral codes, turn the counts into rows and
      sort them by score, highest first. A store error is returned as it is, with no rows. */
  method GetReferralLeaderboard(stored: Result<seq<UserInput>, string>)
    returns (r: Result<seq<ReferralScore>, string>)
    ensures stored.Failure? ==> r == Failure(stored.error)
    ensures stored.Success? ==> r.Success? && IsLeaderboardOf(r.value, stored.value)
  {
    if stored.Failure? {
      return Failure(stored.error);
    }
    var users := stored.value;
    var counts := CountReferrals(users);
    var rows := Flatten(counts);
    var a := new ReferralScore[|rows|](k requires 0 <= k < |rows| => rows[k]);
    assert a[..] == rows;
    SortByScoreDesc(a);
    assert Rows(counts, counts.Keys) == Counted(users);
    r := Success(a[..]);
  }

  // ---------------------------------------------------------------------------------------
  // What a leaderboard says about the users it was computed from

  /** No two rows share a referral code. */
  predicate DistinctCodes(lb: seq<ReferralScore>) {
    forall i, j :: 0 <= i < j < |lb| ==> lb[i].referralCode != lb[j].referralCode
  }

  /** An element that occurs at two positions of a sequence has multiplicity at least two. */
  lemma MultisetCountsRepeat(s: seq<ReferralScore>, i: int, j: int)
    requires 0 <= i < j < |s| && s[i] == s[j]
    ensures multiset(s)[s[i]] >= 2
  {
    assert s == s[..j] + [s[j]] + s[j + 1..];
    assert s[i] in s[..j];
  }

  /** Every row is a used code with its count, so no row has an empty code or a zero score. */
  lemma {:induction false} LeaderboardRows(lb: seq<ReferralScore>, users: seq<UserInput>)
    requires IsLeaderboardOf(lb, users)
    ensures forall i :: 0 <= i < |lb| ==>
      && lb[i].referralCode in UsedCodes(users)
      && lb[i].referralCode != ""
      && lb[i].score == Occurrences(users, lb[i].referralCode)
      && lb[i].score > 0
  {
    forall i | 0 <= i < |lb|
      ensures && lb[i].referralCode in UsedCodes(users)
              && lb[i].referralCode != ""
              && lb[i].score == Occurrences(users, lb[i].referralCode)
              && lb[i].score > 0
    {
      assert lb[i] in multiset(lb);
      assert lb[i] in Counted(users);
      OccurrencesPositive(users, lb[i].referralCode);
    }
  }

  /** Each referral code appears on at most one row. */
  lemma {:induction false} LeaderboardCodesUnique(lb: seq<ReferralScore>, users: seq<UserInput>)
    requires IsLeaderboardOf(lb, users)
    ensures DistinctCodes(lb)
  {
    LeaderboardRows(lb, users);
    forall i, j | 0 <= i < j < |lb| ensures lb[i].referralCode != lb[j].referralCode {
      if lb[i].referralCode == lb[j].referralCode {
        MultisetCountsRepeat(lb, i, j);
        assert false;
      }
    }
  }

  /** The rows name exactly the non-empty referral codes used by the users. */
  lemma {:induction false} LeaderboardCodes(lb: seq<ReferralScore>, users: seq<UserInput>)
    requires IsLeaderboardOf(lb, users)
    ensures CodesOf(lb) == UsedCodes(users)
  {
    LeaderboardRows(lb, users);
    forall code | code in UsedCodes(users) ensures code in CodesOf(lb) {
      var row := ReferralScore(code, Occurrences(users, code));
      assert row in Counted(users);
      assert row in multiset(lb);
    }
  }

  /** Sum over the rows of the number of users carrying the row's code. */
  function OccurrenceSum(lb: seq<ReferralScore>, users: seq<UserInput>): nat {
    if lb == [] then 0
    else OccurrenceSum(lb[..|lb| - 1], users) + Occurrences(users, lb[|lb| - 1].referralCode)
  }

  /** Number of rows whose code is `code`. */
  function RowsWithCode(lb: seq<ReferralScore>, code: string): nat {
    if lb == [] then 0
    else RowsWithCode(lb[..|lb| - 1], code) + (if lb[|lb| - 1].referralCode == code then 1 else 0)
  }

  /** When every row scores its code's user count, the score sum is the sum of those counts. */
  lemma {:induction false} ScoreSumIsOccurrenceSum(lb: seq<ReferralScore>, users: seq<UserInput>)
    requires forall i :: 0 <= i < |lb| ==> lb[i].score == Occurrences(users, lb[i].referralCode)
    ensures ScoreSum(lb) == OccurrenceSum(lb, users)
  {
    if lb != [] {
      ScoreSumIsOccurrenceSum(lb[..|lb| - 1], users);
    }
  }

  /** One more user adds one to the count of every row carrying that user's code. */
  lemma {:induction false} OccurrenceSumAppend(lb: seq<ReferralScore>, users: seq<UserInput>, u: UserInput)
    ensures OccurrenceSum(lb, users + [u]) == OccurrenceSum(lb, users) + RowsWithCode(lb, u.referralCode)
  {
    assert (users + [u])[..|users|] == users;
    if lb != [] {
      OccurrenceSumAppend(lb[..|lb| - 1], users, u);
    }
  }

  /** With distinct codes, a code is on one row if it is used at all and on none otherwise. */
  lemma {:induction false} RowsWithCodeDistinct(lb: seq<ReferralScore>, code: string)
    requires DistinctCodes(lb)
    ensures RowsWithCode(lb, code) == if code in CodesOf(lb) then 1 else 0
  {
    if lb != [] {
      var init := lb[..|lb| - 1];
      var last := lb[|lb| - 1];
      RowsWithCodeDistinct(init, code);
      assert lb == init + [last];
      assert CodesOf(lb) == CodesOf(init) + {last.referralCode};
      assert last.referralCode !in CodesOf(init);
    }
  }

  /** When the rows name exactly the non-empty codes of the users, each once, the users
      counted over the rows are exactly the users who gave a code. */
  lemma {:induction false} OccurrenceSumIsReferred(lb: seq<ReferralScore>, users: seq<UserInput>)
    requires DistinctCodes(lb)
    requires forall u :: u in users ==> (u.referralCode in CodesOf(lb) <==> u.referralCode != "")
    ensures OccurrenceSum(lb, users) == Referred(users)
  {
    if users == [] {
      if lb != [] {
        OccurrenceSumIsReferred(lb[..|lb| - 1], []);
      }
    } else {
      var init := users[..|users| - 1];
      var last := users[|users| - 1];
      assert users == init + [last];
      OccurrenceSumIsReferred(lb, init);
      OccurrenceSumAppend(lb, init, last);
      RowsWithCodeDistinct(lb, last.referralCode);
    }
  }

  /** The scores add up to the number of users who gave a referral code. */
  lemma LeaderboardScoreSum(lb: seq<ReferralScore>, users: seq<UserInput>)
    requires IsLeaderboardOf(lb, users)
    ensures ScoreSum(lb) == Referred(users)
  {
    LeaderboardRows(lb, users);
    LeaderboardCodesUnique(lb, users);
    LeaderboardCodes(lb, users);
    ScoreSumIsOccurrenceSum(lb, users);
    OccurrenceSumIsReferred(lb, users);
  }

  /** With no users, or none that gave a code, the leaderboard is empty. */
  lemma LeaderboardOfNoReferrals(lb: seq<ReferralScore>, users: seq<UserInput>)
    requires IsLeaderboardOf(lb, users)
    requires forall u :: u in users ==> u.referralCode == ""
    ensures lb == []
  {
    assert UsedCodes(users) == {};
    assert Counted(users) == {};
    assert |lb| == |multiset(lb)|;
  }

  /** A registration that carries only a referral code. */
  function WithCode(code: string): UserInput {
    UserInput("", "", "", "", "", "", "", false, code, "")
  }

  /** Codes "A", "A", "B", "", "A" are counted as ("A", 3) and ("B", 1). */
  lemma ExampleCounted(users: seq<UserInput>)
    requires users == [WithCode("A"), WithCode("A"), WithCode("B"), WithCode(""), WithCode("A")]
    ensures Counted(users) == {ReferralScore("A", 3), ReferralScore("B", 1)}
  {
    // the prefixes the counting recursion runs through
    var p1, p2, p3, p4 := users[..1], users[..2], users[..3], users[..4];
    assert p1[..0] == [] && p2[..1] == p1 && p3[..2] == p2 && p4[..3] == p3 && users[..4] == p4;
    assert Occurrences(p1, "A") == 1 && Occurrences(p2, "A") == 2 && Occurrences(p3, "A") == 2;
    assert Occurrences(p4, "A") == 2 && Occurrences(users, "A") == 3;
    assert Occurrences(p1, "B") == 0 && Occurrences(p2, "B") == 0 && Occurrences(p3, "B") == 1;
    assert Occurrences(p4, "B") == 1 && Occurrences(users, "B") == 1;
    assert UsedCodes(users) == {"A", "B"} by {
      assert users[0] in users && users[2] in users;
    }
  }

  /** Codes "A", "A", "B", "", "A" give exactly the rows ("A", 3), ("B", 1). */
  lemma LeaderboardExample(lb: seq<ReferralScore>)
    requires IsLeaderboardOf(lb, [WithCode("A"), WithCode("A"), WithCode("B"), WithCode(""), WithCode("A")])
    ensures lb == [ReferralScore("A", 3), ReferralScore("B", 1)]
  {
    var users := [WithCode("A"), WithCode("A"), WithCode("B"), WithCode(""), WithCode("A")];
    ExampleCounted(users);
    assert |lb| == |multiset(lb)| == 2;
    assert lb[0] in multiset(lb) && lb[1] in multiset(lb);
    LeaderboardCodesUnique(lb, users);
  }
}
