/** The pure helpers of Backend/controllers/coding.controller.js: the
    difficulty colours, the mapping of a Codeforces rating to a difficulty,
    and the problem-of-the-day cards built from already fetched data. The
    HTTP calls to LeetCode and Codeforces are not modelled; their answers
    are parameters. */
module Coding {
  import opened Common

  const Green: string := "bg-green-600"
  const Yellow: string := "bg-yellow-600"
  const Red: string := "bg-red-600"
  const Gray: string := "bg-gray-600"

  // ---------------------------------------------------------------------
  // getDifficultyColor

  /** `getDifficultyColor` as intended: easy, medium and hard in any letter
      case are green, yellow and red; every other text is gray. */
  function DifficultyColor(difficulty: string): (c: string)
    ensures ToLower(difficulty) == "easy" ==> c == Green
    ensures ToLower(difficulty) == "medium" ==> c == Yellow
    ensures ToLower(difficulty) == "hard" ==> c == Red
    ensures ToLower(difficulty) !in {"easy", "medium", "hard"} ==> c == Gray
  {
    var key := ToLower(difficulty);
    if key == "easy" then Green
    else if key == "medium" then Yellow
    else if key == "hard" then Red
    else Gray
  }

  /** The colour does not depend on letter case. */
  lemma DifficultyColorIgnoresCase(difficulty: string)
    ensures DifficultyColor(ToLower(difficulty)) == DifficultyColor(difficulty)
  {
    ToLowerIdempotent(difficulty);
  }

  /** What `colors[key] || 'bg-gray-600'` can produce: one of the table's
      class names, or a member every object inherits from
      `Object.prototype` (a function or an object, so truthy). */
  datatype ColorValue = ClassName(name: string) | Inherited(member: string)

  /** The property names of `Object.prototype` that are entirely lower
      case, so that a lower-cased key can name them. */
  const InheritedLowerCaseMembers: set<string> := {"constructor", "__proto__"}

  /** `getDifficultyColor` as written: the key is looked up on a plain
      object literal, which also has the inherited members. */
  function DifficultyColorAsWritten(difficulty: string): (c: ColorValue)
    ensures ToLower(difficulty) in InheritedLowerCaseMembers ==> c.Inherited?
    ensures ToLower(difficulty) !in InheritedLowerCaseMembers ==> c == ClassName(DifficultyColor(difficulty))
  {
    var key := ToLower(difficulty);
    if key == "easy" then ClassName(Green)
    else if key == "medium" then ClassName(Yellow)
    else if key == "hard" then ClassName(Red)
    else if key in InheritedLowerCaseMembers then Inherited(key)
    else ClassName(Gray)
  }

  /** A difficulty that lower-cases to "constructor" (such as
      "constructor" itself, by `ConstructorIsLowerCase`) gets the `Object`
      constructor function instead of a class name; the intended colour is
      gray. */
  lemma InheritedMemberIsNotAColor(difficulty: string)
    requires ToLower(difficulty) == "constructor"
    ensures DifficultyColorAsWritten(difficulty) == Inherited("constructor")
    ensures DifficultyColor(difficulty) == Gray
  {
    assert ToLower(difficulty) in InheritedLowerCaseMembers;
  }

  /** The input of the finding: "constructor" is its own lower case. */
  lemma ConstructorIsLowerCase()
    ensures ToLower("constructor") == "constructor"
  {
    var k := "constructor";
    assert IsLower(k);
    LowerOfLower(k);
  }

  // ---------------------------------------------------------------------
  // getCodeforcesdifficulty

  /** A difficulty with the colour shown beside it. */
  datatype Rated = Rated(difficulty: string, color: string)

  /** The rank of the three difficulty names, easiest first. */
  function Rank(difficulty: string): nat {
    if difficulty == "Easy" then 0 else if difficulty == "Medium" then 1 else 2
  }

  /** The three names the rating mapping produces get their colours. */
  lemma NamedDifficultyColors()
    ensures DifficultyColor("Easy") == Green
    ensures DifficultyColor("Medium") == Yellow
    ensures DifficultyColor("Hard") == Red
  {
    LowerName("Easy", "easy");
    LowerName("Medium", "medium");
    LowerName("Hard", "hard");
  }

  /** A capitalised name lower-cases to its lower-case spelling. */
  lemma LowerName(name: string, lower: string)
    requires |name| == |lower| > 0
    requires 'A' <= name[0] <= 'Z' && lower[0] == LowerChar(name[0])
    requires IsLower(name[1..]) && name[1..] == lower[1..]
    ensures ToLower(name) == lower
  {
    LowerOfLower(name[1..]);
    assert name == [name[0]] + name[1..];
  }

  /** A Codeforces problem rating mapped to a difficulty: no rating (or 0)
      is Medium, below 1200 Easy, below 1700 Medium, otherwise Hard. The
      colour is always the one `getDifficultyColor` gives the name. */
  function CodeforcesDifficulty(rating: Option<int>): (r: Rated)
    ensures r.difficulty in {"Easy", "Medium", "Hard"}
    ensures r.color == DifficultyColor(r.difficulty)
    ensures rating.None? || rating == Some(0) ==> r.difficulty == "Medium"
    ensures rating.Some? && rating.value != 0 ==>
      (r.difficulty == "Easy" <==> rating.value < 1200)
      && (r.difficulty == "Medium" <==> 1200 <= rating.value < 1700)
      && (r.difficulty == "Hard" <==> 1700 <= rating.value)
  {
    NamedDifficultyColors();
    if rating.None? || rating.value == 0 then Rated("Medium", Yellow)
    else if rating.value < 1200 then Rated("Easy", Green)
    else if rating.value < 1700 then Rated("Medium", Yellow)
    else Rated("Hard", Red)
  }

  /** Among rated problems, a higher rating never gives an easier
      difficulty. */
  lemma DifficultyMonotone(a: int, b: int)
    requires 0 < a <= b
    ensures Rank(CodeforcesDifficulty(Some(a)).difficulty) <= Rank(CodeforcesDifficulty(Some(b)).difficulty)
  {
  }

  // ---------------------------------------------------------------------
  // getCodeforcesPotd

  /** A problem of the Codeforces problem set; `contestId` may be absent. */
  datatype Problem = Problem(contestId: Option<nat>, index: string, name: string, rating: Option<int>)

  /** The `p => p.contestId` filter: a present, non-zero contest id. */
  predicate HasContest(p: Problem) {
    p.contestId.Some? && p.contestId.value != 0
  }

  /** `problems.filter(p => p.contestId)`. */
  function ValidProblems(ps: seq<Problem>): (r: seq<Problem>)
    ensures |r| <= |ps|
    ensures forall p :: p in r ==> p in ps && HasContest(p)
  {
    if ps == [] then []
    else if HasContest(ps[0]) then [ps[0]] + ValidProblems(ps[1..])
    else ValidProblems(ps[1..])
  }

  /** Every listed problem with a contest id is kept. */
  lemma {:induction false} ValidProblemsComplete(ps: seq<Problem>, p: Problem)
    requires p in ps && HasContest(p)
    ensures p in ValidProblems(ps)
  {
    if ps[0] != p {
      ValidProblemsComplete(ps[1..], p);
    }
  }

  /** The filter keeps the order of the list: filtering two parts and
      joining them is filtering the joined list. */
  lemma {:induction false} ValidProblemsAppend(a: seq<Problem>, b: seq<Problem>)
    ensures ValidProblems(a + b) == ValidProblems(a) + ValidProblems(b)
  {
    if a == [] {
      assert a + b == b;
    } else {
      assert (a + b)[0] == a[0];
      assert (a + b)[1..] == a[1..] + b;
      ValidProblemsAppend(a[1..], b);
    }
  }

  const ProblemBase: string := "https://codeforces.com/problemset/problem/"

  /** The problem's page: the base URL, the contest id, a slash and the
      problem's index. */
  function ProblemLink(contestId: nat, index: string): (link: string)
    ensures |link| > |ProblemBase| + |index| && link[..|ProblemBase|] == ProblemBase
    ensures link[|link| - |index| - 1..] == "/" + index
  {
    ProblemBase + NatToString(contestId) + "/" + index
  }

  /** Different numbers print differently. */
  lemma {:induction false} NatToStringInjective(a: nat, b: nat)
    requires NatToString(a) == NatToString(b)
    ensures a == b
  {
    if a >= 10 && b >= 10 {
      var sa, sb := NatToString(a), NatToString(b);
      assert sa[..|sa| - 1] == NatToString(a / 10);
      assert sb[..|sb| - 1] == NatToString(b / 10);
      NatToStringInjective(a / 10, b / 10);
      assert sa[|sa| - 1] == sb[|sb| - 1];
    }
  }

  /** The link names its problem: two problems with the same link have the
      same contest id and index. */
  lemma ProblemLinkInjective(c1: nat, i1: string, c2: nat, i2: string)
    requires ProblemLink(c1, i1) == ProblemLink(c2, i2)
    ensures c1 == c2 && i1 == i2
  {
    var d1, d2 := NatToString(c1), NatToString(c2);
    var l := ProblemLink(c1, i1);
    var n := |ProblemBase|;
    assert l[n..] == d1 + "/" + i1;
    assert l[n..] == d2 + "/" + i2;
    SplitAtSlash(d1, i1, d2, i2);
    NatToStringInjective(c1, c2);
  }

  predicate AllDigits(d: string) {
    forall i :: 0 <= i < |d| ==> '0' <= d[i] <= '9'
  }

  /** In a run of digits followed by a slash, the first slash ends the run. */
  lemma FirstSlash(d: string, i: string)
    requires AllDigits(d)
    ensures (d + "/" + i)[|d|] == '/'
    ensures forall j :: 0 <= j < |d| ==> (d + "/" + i)[j] != '/'
  {
  }

  /** A run of digits followed by a slash is read back unambiguously. */
  lemma SplitAtSlash(d1: string, i1: string, d2: string, i2: string)
    requires AllDigits(d1) && AllDigits(d2)
    requires d1 + "/" + i1 == d2 + "/" + i2
    ensures d1 == d2 && i1 == i2
  {
    var x := d1 + "/" + i1;
    var y := d2 + "/" + i2;
    FirstSlash(d1, i1);
    FirstSlash(d2, i2);
    assert |d1| == |d2|;
    assert d1 == x[..|d1|] && d2 == y[..|d2|];
    assert i1 == x[|d1| + 1..] && i2 == y[|d2| + 1..];
  }

  /** The problem-of-the-day card. */
  datatype Card = Card(platform: string, title: string, link: string, difficulty: string, color: string)

  /** The Codeforces problem of the day, given the fetched problem list
      (`None` when the response has none) and the random draw `draw`, which
      picks position `draw % n` of the `n` suitable problems. */
  function CodeforcesPotd(problems: Option<seq<Problem>>, draw: nat): (r: Result<Card>)
    ensures problems.None? || problems.value == [] ==> r == Err(NotFound)
    ensures problems.Some? && ValidProblems(problems.value) == [] ==> r == Err(NotFound)
    ensures r.Ok? ==>
      exists p :: p in problems.value && HasContest(p)
        && r.value == Card("Codeforces", p.name, ProblemLink(p.contestId.value, p.index),
                           CodeforcesDifficulty(p.rating).difficulty, CodeforcesDifficulty(p.rating).color)
    ensures problems.Some? && ValidProblems(problems.value) != [] ==> r.Ok?
  {
    if problems.None? || problems.value == [] then Err(NotFound)
    else
      var valid := ValidProblems(problems.value);
      if valid == [] then Err(NotFound)
      else
        var p := valid[draw % |valid|];
        assert p in valid;
        var rated := CodeforcesDifficulty(p.rating);
        Ok(Card("Codeforces", p.name, ProblemLink(p.contestId.value, p.index), rated.difficulty, rated.color))
  }

  /** `getCodeforcesPotd` as written: the 404s are thrown inside the
      `try`, and its `catch` passes on only errors of the HTTP client,
      answering every other error, these 404s included, with 500. */
  function CodeforcesPotdAsWritten(problems: Option<seq<Problem>>, draw: nat): (r: Result<Card>)
    ensures CodeforcesPotd(problems, draw).Ok? ==> r == CodeforcesPotd(problems, draw)
    ensures CodeforcesPotd(problems, draw).Err? ==> r == Err(Internal)
  {
    var intended := CodeforcesPotd(problems, draw);
    if intended.Err? then Err(Internal) else intended
  }

  /** An empty problem list, or one without contest ids, is answered with
      500 as written, where the handler meant 404. */
  lemma NoProblemIsInternalError(problems: Option<seq<Problem>>, draw: nat)
    requires problems.None? || ValidProblems(problems.value) == []
    ensures CodeforcesPotdAsWritten(problems, draw) == Err(Internal)
    ensures CodeforcesPotd(problems, draw) == Err(NotFound)
    ensures StatusCode(Internal) == 500 && StatusCode(NotFound) == 404
  {
  }

  /** LeetCode's daily question as far as the card uses it. */
  datatype Question = Question(difficulty: string, title: string)
  datatype DailyChallenge = DailyChallenge(date: string, link: string, question: Option<Question>)

  /** The LeetCode problem of the day: 404 without a question, otherwise
      the card linking to the site with the question's colour. */
  function LeetCodePotd(potd: Option<DailyChallenge>): (r: Result<Card>)
    ensures potd.None? || potd.value.question.None? <==> r == Err(NotFound)
    ensures r.Ok? ==>
      && r.value.platform == "LeetCode" && r.value.title == potd.value.question.value.title
      && r.value.link == "https://leetcode.com" + potd.value.link
      && r.value.color == DifficultyColor(potd.value.question.value.difficulty)
      && r.value.difficulty == potd.value.question.value.difficulty
  {
    if potd.None? || potd.value.question.None? then Err(NotFound)
    else
      var q := potd.value.question.value;
      Ok(Card("LeetCode", q.title, "https://leetcode.com" + potd.value.link, q.difficulty, DifficultyColor(q.difficulty)))
  }
}
