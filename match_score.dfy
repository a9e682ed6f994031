/** The keyword-overlap score of a resume against a job description
    (calculate_match_percentage): the share of the job description's
    lower-cased tokens that also occur among the resume's, as a percentage. */
module MatchScore {
  import opened Text

  /** set(text.lower().split()) */
  function Tokens(s: string): (t: set<string>)
    ensures forall w :: w in t ==> IsWord(w)
  {
    set w | w in Words(Lower(s))
  }

  /** An exact non-negative rational num / den; the score is a percentage. */
  datatype Ratio = Ratio(num: nat, den: nat)

  function Value(p: Ratio): real
    requires p.den > 0
  {
    p.num as real / p.den as real
  }

  /** calculate_match_percentage before rounding: 100 * |R & J| / |J| for the
      token sets R of the resume and J of the job description, and 0 when J is
      empty, in which case nothing is divided. */
  function Score(resume: string, job: string): (p: Ratio)
    ensures p.den > 0
  {
    var r := Tokens(resume);
    var j := Tokens(job);
    if j == {} then Ratio(0, 1) else Ratio(100 * |r * j|, |j|)
  }

  lemma SubsetCard<T>(a: set<T>, b: set<T>)
    requires a <= b
    ensures |a| <= |b|
    ensures |a| == |b| ==> a == b
  {
    assert b == a + (b - a);
    assert |b| == |a| + |b - a|;
    if |a| == |b| {
      assert |b - a| == 0;
      assert b - a == {};
    }
  }

  /** The score always lies between 0 and 100 percent. */
  lemma ScoreBounds(resume: string, job: string)
    ensures Score(resume, job).num <= 100 * Score(resume, job).den
    ensures 0.0 <= Value(Score(resume, job)) <= 100.0
  {
    var r, j := Tokens(resume), Tokens(job);
    SubsetCard(r * j, j);
    var p := Score(resume, job);
    assert p.num <= 100 * p.den;
    QuotientBound(p.num as real, p.den as real);
  }

  lemma QuotientBound(n: real, d: real)
    requires d > 0.0 && 0.0 <= n <= 100.0 * d
    ensures 0.0 <= n / d <= 100.0
  {
  }

  /** A job description has no tokens exactly when it is all whitespace
      (the empty string included), and then the score is exactly 0. */
  lemma ScoreOfBlankJob(resume: string, job: string)
    ensures Tokens(job) == {} <==> AllSpace(job)
    ensures AllSpace(job) ==> Score(resume, job) == Ratio(0, 1)
  {
    WordsEmptyIff(Lower(job));
    forall i | 0 <= i < |job| ensures IsSpace(Lower(job)[i]) == IsSpace(job[i]) {
      LowerKeepsSpaces(job[i]);
    }
    var ws := Words(Lower(job));
    if ws != [] { assert ws[0] in Tokens(job); }
  }

  /** The score is 100 exactly when the job description has a token and every
      one of its tokens occurs in the resume. */
  lemma ScoreFullIff(resume: string, job: string)
    ensures Score(resume, job).num == 100 * Score(resume, job).den
        <==> Tokens(job) != {} && Tokens(job) <= Tokens(resume)
  {
    var r, j := Tokens(resume), Tokens(job);
    SubsetCard(r * j, j);
    if j <= r { assert r * j == j; }
  }

  /** The score is 0 exactly when the two texts share no token. */
  lemma ScoreZeroIff(resume: string, job: string)
    ensures Score(resume, job).num == 0 <==> Tokens(resume) * Tokens(job) == {}
  {
  }

  /** Changing the letter case of either text leaves the score unchanged. */
  lemma ScoreCaseInsensitive(resume: string, resume': string, job: string, job': string)
    requires SameUpToCase(resume, resume') && SameUpToCase(job, job')
    ensures Score(resume, job) == Score(resume', job')
  {
    SameUpToCaseLower(resume, resume');
    SameUpToCaseLower(job, job');
  }

  /** In particular, upper- or lower-casing the inputs changes nothing. */
  lemma ScoreOfRecased(resume: string, job: string)
    ensures Score(Upper(resume), Lower(job)) == Score(resume, job)
    ensures Score(Lower(resume), Upper(job)) == Score(resume, job)
  {
    UpperSameUpToCase(resume);
    UpperSameUpToCase(job);
    ScoreCaseInsensitive(resume, Upper(resume), job, Lower(job));
    ScoreCaseInsensitive(resume, Lower(resume), job, Upper(job));
  }

  /** The tokens of two texts joined by a space are the tokens of each. */
  lemma TokensConcat(a: string, b: string)
    ensures Tokens(a + " " + b) == Tokens(a) + Tokens(b)
  {
    LowerConcat(a + " ", b);
    LowerConcat(a, " ");
    assert Lower(" ") == " ";
    WordsConcat(Lower(a), ' ', Lower(b));
    assert Lower(a + " " + b) == Lower(a) + [' '] + Lower(b);
  }

  /** The score depends on the two token sets only. */
  lemma ScoreOfSameTokens(resume: string, resume': string, job: string, job': string)
    requires Tokens(resume) == Tokens(resume') && Tokens(job) == Tokens(job')
    ensures Score(resume, job) == Score(resume', job')
  {
  }

  /** Repeating a text, in either argument, leaves the score unchanged. */
  lemma ScoreIgnoresRepetition(resume: string, job: string)
    ensures Score(resume + " " + resume, job) == Score(resume, job)
    ensures Score(resume, job + " " + job) == Score(resume, job)
  {
    TokensConcat(resume, resume);
    TokensConcat(job, job);
    ScoreOfSameTokens(resume + " " + resume, resume, job, job);
    ScoreOfSameTokens(resume, resume, job + " " + job, job);
  }

  /** Swapping two parts of a text, in either argument, leaves the score unchanged. */
  lemma ScoreIgnoresOrder(a: string, b: string, other: string)
    ensures Score(a + " " + b, other) == Score(b + " " + a, other)
    ensures Score(other, a + " " + b) == Score(other, b + " " + a)
  {
    TokensConcat(a, b);
    TokensConcat(b, a);
    ScoreOfSameTokens(a + " " + b, b + " " + a, other, other);
    ScoreOfSameTokens(other, other, a + " " + b, b + " " + a);
  }

  /** A resume whose tokens include another's scores at least as high
      against the same job description. */
  lemma ScoreMonotone(resume: string, resume': string, job: string)
    requires Tokens(resume) <= Tokens(resume')
    ensures Score(resume, job).den == Score(resume', job).den
    ensures Score(resume, job).num <= Score(resume', job).num
  {
    SubsetCard(Tokens(resume) * Tokens(job), Tokens(resume') * Tokens(job));
  }

  /** Adding words to the resume never lowers the score. */
  lemma ScoreAddWords(resume: string, extra: string, job: string)
    ensures Score(resume, job).den == Score(resume + " " + extra, job).den
    ensures Score(resume, job).num <= Score(resume + " " + extra, job).num
  {
    TokensConcat(resume, extra);
    ScoreMonotone(resume, resume + " " + extra, job);
  }

  /** The tokens of a single-space join of words are those words, lower-cased. */
  lemma TokensOfJoin(ws: seq<string>)
    requires forall k :: 0 <= k < |LowerAll(ws)| ==> IsWord(LowerAll(ws)[k])
    ensures Tokens(JoinWords(ws)) == set w | w in LowerAll(ws)
  {
    LowerJoinWords(ws);
    WordsOfJoin(LowerAll(ws));
  }

  /** The two example texts are single-space joins of their words. */
  lemma ExampleTexts()
    ensures JoinWords(["Python", "Java", "SQL"]) == "Python Java SQL"
    ensures JoinWords(["Python", "SQL", "Go"]) == "Python SQL Go"
  {
  }

  lemma ExampleWordsLowered()
    ensures Lower("Python") == "python" && Lower("Java") == "java"
    ensures Lower("SQL") == "sql" && Lower("Go") == "go"
  {
  }

  lemma ExampleLowered()
    ensures LowerAll(["Python", "Java", "SQL"]) == ["python", "java", "sql"]
    ensures LowerAll(["Python", "SQL", "Go"]) == ["python", "sql", "go"]
  {
    ExampleWordsLowered();
  }

  lemma ExampleWordsAreWords()
    ensures IsWord("python") && IsWord("java") && IsWord("sql") && IsWord("go")
  {
  }

  /** The tokens of the two example texts are their words, lower-cased. */
  lemma TokensOfExample(ws: seq<string>, s: string)
    requires ws == ["Python", "Java", "SQL"] || ws == ["Python", "SQL", "Go"]
    requires s == JoinWords(ws)
    ensures ws == ["Python", "Java", "SQL"] ==> Tokens(s) == {"python", "java", "sql"}
    ensures ws == ["Python", "SQL", "Go"] ==> Tokens(s) == {"python", "sql", "go"}
  {
    ExampleLowered();
    ExampleWordsAreWords();
    TokensOfJoin(ws);
  }

  /** The resume "Python Java SQL" against the job description "Python SQL Go"
      shares two of the job's three tokens: 200/3 percent, displayed as 66.67. */
  lemma ScoreOfExample(resume: string, job: string)
    requires resume == "Python Java SQL" && job == "Python SQL Go"
    ensures Score(resume, job) == Ratio(200, 3)
  {
    ExampleTexts();
    TokensOfExample(["Python", "Java", "SQL"], resume);
    TokensOfExample(["Python", "SQL", "Go"], job);
    var r, j := Tokens(resume), Tokens(job);
    assert r * j == {"python", "sql"};
  }

  lemma SmallLowered()
    ensures LowerAll(["python"]) == ["python"]
    ensures LowerAll(["python", "sql"]) == ["python", "sql"]
  {
    assert Lower("python") == "python";
    assert Lower("sql") == "sql";
  }

  lemma SmallTexts()
    ensures JoinWords(["python"]) == "python"
    ensures JoinWords(["python", "sql"]) == "python sql"
  {
  }

  lemma TokensOfSmall(one: string, two: string)
    requires one == JoinWords(["python"]) && two == JoinWords(["python", "sql"])
    ensures Tokens(one) == {"python"} && Tokens(two) == {"python", "sql"}
  {
    SmallLowered();
    ExampleWordsAreWords();
    TokensOfJoin(["python"]);
    TokensOfJoin(["python", "sql"]);
  }

  /** The score is asymmetric: only the job description's tokens are counted,
      so "python" scores 50 against "python sql" and "python sql" 100 against "python". */
  lemma ScoreAsymmetric(one: string, two: string)
    requires one == "python" && two == "python sql"
    ensures Score(one, two) == Ratio(100, 2)
    ensures Score(two, one) == Ratio(100, 1)
  {
    SmallTexts();
    TokensOfSmall(one, two);
    var a, b := Tokens(one), Tokens(two);
    assert a * b == a && b * a == a;
  }
}
