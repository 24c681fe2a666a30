/** The first-match keyword chains the agents classify issues with:
    `if (text.includes(k1) || text.includes(k2)) return label; ...`. */
module Keywords {
  import opened Wrappers
  import opened AgentTypes
  import opened Text

  datatype Rule<L> = Rule(keywords: seq<string>, answer: L)

  /** The rule's condition holds: the text contains one of its keywords. */
  predicate Fires<L>(r: Rule<L>, text: string)
  {
    exists k :: k in r.keywords && Contains(text, k)
  }

  /** The first rule whose condition holds. */
  function FirstFiring<L>(rules: seq<Rule<L>>, text: string): (r: Option<nat>)
    ensures r.Some? ==> (r.value < |rules| && Fires(rules[r.value], text) &&
                         forall j :: 0 <= j < r.value ==> !Fires(rules[j], text))
    ensures r.None? ==> forall j :: 0 <= j < |rules| ==> !Fires(rules[j], text)
  {
    if rules == [] then None
    else if Fires(rules[0], text) then Some(0)
    else
      match FirstFiring(rules[1..], text)
      case None => None
      case Some(i) =>
        assert forall j :: 1 <= j <= i ==> rules[j] == rules[1..][j - 1];
        Some(i + 1)
  }

  /** The answer of the first rule that fires, or the fallback. */
  function Classify<L>(rules: seq<Rule<L>>, text: string, otherwise: L): (l: L)
    ensures FirstFiring(rules, text).None? ==> l == otherwise
    ensures FirstFiring(rules, text).Some? ==> l == rules[FirstFiring(rules, text).value].answer
  {
    match FirstFiring(rules, text)
    case None => otherwise
    case Some(i) => rules[i].answer
  }

  ghost predicate DistinctAnswers<L>(rules: seq<Rule<L>>, otherwise: L)
  {
    (forall i, j :: 0 <= i < j < |rules| ==> rules[i].answer != rules[j].answer) &&
    (forall i :: 0 <= i < |rules| ==> rules[i].answer != otherwise)
  }

  /** Rule i's answer is given by no other rule and is not the fallback. */
  ghost predicate UniqueAnswer<L>(rules: seq<Rule<L>>, otherwise: L, i: nat)
  {
    i < |rules| && rules[i].answer != otherwise &&
    forall j :: 0 <= j < |rules| && j != i ==> rules[j].answer != rules[i].answer
  }

  lemma DistinctUnique<L>(rules: seq<Rule<L>>, otherwise: L, i: nat)
    requires DistinctAnswers(rules, otherwise) && i < |rules|
    ensures UniqueAnswer(rules, otherwise, i)
  {
  }

  /** A rule that fires with none before it firing is the first firing one. */
  lemma FirstFiringIs<L>(rules: seq<Rule<L>>, text: string, i: nat)
    requires i < |rules| && Fires(rules[i], text)
    requires forall j :: 0 <= j < i ==> !Fires(rules[j], text)
    ensures FirstFiring(rules, text) == Some(i)
  {
  }

  /** An answer that only rule i gives comes out exactly when rule i fires
      and no earlier one does. */
  lemma ClassifyExactly<L>(rules: seq<Rule<L>>, text: string, otherwise: L, i: nat)
    requires UniqueAnswer(rules, otherwise, i)
    ensures Classify(rules, text, otherwise) == rules[i].answer <==>
      Fires(rules[i], text) && forall j :: 0 <= j < i ==> !Fires(rules[j], text)
  {
    if Fires(rules[i], text) && forall j :: 0 <= j < i ==> !Fires(rules[j], text) {
      FirstFiringIs(rules, text, i);
    }
  }

  /** A fallback that no rule gives comes out exactly when nothing fires. */
  lemma ClassifyFallback<L>(rules: seq<Rule<L>>, text: string, otherwise: L)
    requires forall i :: 0 <= i < |rules| ==> rules[i].answer != otherwise
    ensures Classify(rules, text, otherwise) == otherwise <==>
      forall j :: 0 <= j < |rules| ==> !Fires(rules[j], text)
  {
  }

  /** A first rule that does not fire can be dropped. */
  lemma ClassifyTail<L>(rules: seq<Rule<L>>, text: string, otherwise: L)
    requires rules != [] && !Fires(rules[0], text)
    ensures Classify(rules, text, otherwise) == Classify(rules[1..], text, otherwise)
  {
  }

  /** Any rule that does not fire can be dropped. */
  lemma {:induction false} ClassifySkipSilent<L>(rules: seq<Rule<L>>, k: nat, text: string, otherwise: L)
    requires k < |rules| && !Fires(rules[k], text)
    ensures Classify(rules, text, otherwise) == Classify(rules[..k] + rules[k + 1..], text, otherwise)
    decreases k
  {
    var rest := rules[..k] + rules[k + 1..];
    if k == 0 {
      assert rest == rules[1..];
      ClassifyTail(rules, text, otherwise);
    } else if !Fires(rules[0], text) {
      assert rest[0] == rules[0];
      ClassifyTail(rules, text, otherwise);
      ClassifyTail(rest, text, otherwise);
      assert rest[1..] == rules[1..][..k - 1] + rules[1..][k..];
      ClassifySkipSilent(rules[1..], k - 1, text, otherwise);
    } else {
      assert rest[0] == rules[0];
    }
  }

  /** A last rule whose answer is the fallback changes nothing. */
  lemma ClassifyDropLast<L>(rules: seq<Rule<L>>, text: string, otherwise: L)
    requires rules != [] && rules[|rules| - 1].answer == otherwise
    ensures Classify(rules, text, otherwise) == Classify(rules[..|rules| - 1], text, otherwise)
  {
    var init := rules[..|rules| - 1];
    match FirstFiring(init, text)
    case Some(i) =>
      assert rules[i] == init[i];
      assert forall j :: 0 <= j < i ==> rules[j] == init[j];
      FirstFiringIs(rules, text, i);
    case None =>
      assert forall j :: 0 <= j < |init| ==> rules[j] == init[j];
  }

  /** The text the classifiers look at: title, a space and body, lowered. */
  function IssueText(issue: Issue): (t: string)
    ensures |t| == |issue.title| + 1 + |issue.body|
  {
    Lower(issue.title + " " + issue.body)
  }
}
