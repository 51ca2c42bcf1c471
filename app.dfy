/** The session controller of the application: the state record with its five
    fields, the handlers that move it between the start, quiz and results
    screens, and the two pure list operations those handlers use (the filter
    applied to the stored list on load and the order-preserving merge). */
module App {
  import opened Types
  import opened Seqs

  /** How many cards one session draws from the shuffled bank. */
  const CHARS_PER_SET: nat := 20

  function Min(a: nat, b: nat): (r: nat) {
    if a <= b then a else b
  }

  /** `c` is the character of some item of the bank (`HANZI_BANK.some(h => h.char === c)`). */
  predicate InBank(bank: seq<HanziChar>, c: string) {
    exists h :: h in bank && h.character == c
  }

  /** The characters of the given items, in order (`items.map(h => h.char)`). */
  function Chars(items: seq<HanziChar>): (r: seq<string>) {
    seq(|items|, i requires 0 <= i < |items| => items[i].character)
  }

  // ---------------------------------------------------------------------
  // Load filter: the stored list, once parsed, keeps only characters of the bank.

  /** The entries of `parsed` that are characters of the bank, in their order;
      repeated entries are kept. */
  function FilterValid(parsed: seq<string>, bank: seq<HanziChar>): (r: seq<string>)
    ensures |r| <= |parsed|
    ensures forall c :: c in r ==> InBank(bank, c)
    decreases |parsed|
  {
    if parsed == [] then []
    else
      var c := parsed[|parsed| - 1];
      FilterValid(parsed[..|parsed| - 1], bank) + (if InBank(bank, c) then [c] else [])
  }

  lemma {:induction false} FilterValidSubsequence(parsed: seq<string>, bank: seq<HanziChar>)
    ensures IsSubsequence(FilterValid(parsed, bank), parsed)
    decreases |parsed|
  {
    if parsed != [] {
      var p := parsed[..|parsed| - 1];
      var c := parsed[|parsed| - 1];
      FilterValidSubsequence(p, bank);
      var f := FilterValid(p, bank);
      if InBank(bank, c) {
        assert (f + [c])[..|f|] == f;
      } else {
        assert f + [] == f;
      }
    }
  }

  lemma {:induction false} FilterValidMembers(parsed: seq<string>, bank: seq<HanziChar>)
    ensures forall c :: c in FilterValid(parsed, bank) <==> c in parsed && InBank(bank, c)
    decreases |parsed|
  {
    if parsed != [] {
      var p := parsed[..|parsed| - 1];
      FilterValidMembers(p, bank);
      assert parsed == p + [parsed[|parsed| - 1]];
    }
  }

  /** The filter does not de-duplicate: a kept character occurs as often as in the input. */
  lemma {:induction false} FilterValidMultiplicity(parsed: seq<string>, bank: seq<HanziChar>)
    ensures forall c :: multiset(FilterValid(parsed, bank))[c] == (if InBank(bank, c) then multiset(parsed)[c] else 0)
    decreases |parsed|
  {
    if parsed != [] {
      var p := parsed[..|parsed| - 1];
      FilterValidMultiplicity(p, bank);
      assert parsed == p + [parsed[|parsed| - 1]];
    }
  }

  /** A stored list whose entries are all in the bank is loaded as it is. */
  lemma {:induction false} FilterValidKeepsValid(parsed: seq<string>, bank: seq<HanziChar>)
    requires forall c :: c in parsed ==> InBank(bank, c)
    ensures FilterValid(parsed, bank) == parsed
    decreases |parsed|
  {
    if parsed != [] {
      var p := parsed[..|parsed| - 1];
      assert parsed == p + [parsed[|parsed| - 1]];
      FilterValidKeepsValid(p, bank);
    }
  }

  // ---------------------------------------------------------------------
  // Merge: `Array.from(new Set([...stored, ...added]))`.

  /** The stored list followed by the newly missed characters, each character
      kept at its first occurrence. */
  function Merge(stored: seq<string>, added: seq<string>): (r: seq<string>)
    ensures NoDups(r)
    ensures forall c :: c in r <==> c in stored || c in added
  {
    DedupNoDups(stored + added);
    DedupMembers(stored + added);
    Dedup(stored + added)
  }

  /** The merge never reorders or drops what was stored: the de-duplicated
      stored list is a prefix of the result, and so is the stored list
      itself when it has no duplicates. */
  lemma MergeKeepsStored(stored: seq<string>, added: seq<string>)
    ensures Dedup(stored) <= Merge(stored, added)
    ensures NoDups(stored) ==> stored <= Merge(stored, added)
  {
    DedupPrefix(stored, added);
    if NoDups(stored) {
      DedupOfNoDups(stored);
    }
  }

  /** Merging the same characters a second time changes nothing. */
  lemma MergeIdempotent(stored: seq<string>, added: seq<string>)
    ensures Merge(Merge(stored, added), added) == Merge(stored, added)
  {
    var m := Merge(stored, added);
    DedupAbsorbs(m, added);
    DedupOfNoDups(m);
  }

  /** The merged list is ordered by first occurrence in `stored + added`. */
  lemma MergeFirstOccurrenceOrder(stored: seq<string>, added: seq<string>)
    ensures forall i, j :: 0 <= i < j < |Merge(stored, added)| ==>
      FirstIndex(stored + added, Merge(stored, added)[i]) <
      FirstIndex(stored + added, Merge(stored, added)[j])
  {
    DedupFirstOccurrenceOrder(stored + added);
  }

  // ---------------------------------------------------------------------
  // Session sampling: `shuffled.slice(0, CHARS_PER_SET)`.

  /** The first `CHARS_PER_SET` cards of the shuffled bank, or all of them
      when the bank is smaller. */
  function SessionSubset(shuffled: seq<HanziChar>): (r: seq<HanziChar>) {
    if |shuffled| <= CHARS_PER_SET then shuffled else shuffled[..CHARS_PER_SET]
  }

  /** A session drawn from any permutation of the bank has `min(20, |bank|)`
      cards, all from the bank, none twice unless the bank repeats one. */
  lemma SessionSubsetFromBank(bank: seq<HanziChar>, shuffled: seq<HanziChar>)
    requires multiset(shuffled) == multiset(bank)
    ensures |SessionSubset(shuffled)| == Min(CHARS_PER_SET, |bank|)
    ensures multiset(SessionSubset(shuffled)) <= multiset(bank)
    ensures |bank| <= CHARS_PER_SET ==> multiset(SessionSubset(shuffled)) == multiset(bank)
    ensures NoDups(bank) ==> NoDups(SessionSubset(shuffled))
  {
    var r := SessionSubset(shuffled);
    assert |shuffled| == |multiset(shuffled)| == |bank|;
    if |shuffled| > CHARS_PER_SET {
      assert shuffled == r + shuffled[CHARS_PER_SET..];
    }
    if NoDups(bank) {
      NoDupsMultiplicity(bank);
      NoDupsMultiplicity(r);
      forall x ensures multiset(r)[x] <= 1 {
        assert multiset(r)[x] <= multiset(bank)[x];
      }
    }
  }

  // ---------------------------------------------------------------------
  // The session record of missed cards.

  /** The cards answered "not remembered": `answers[i]` is the outcome for
      `shown[i]`, and the missed cards are listed in the order they were shown. */
  ghost function Missed(shown: seq<HanziChar>, answers: seq<bool>): (r: seq<HanziChar>)
    requires |answers| <= |shown|
    decreases |answers|
  {
    if answers == [] then []
    else
      var n := |answers| - 1;
      Missed(shown, answers[..n]) + (if answers[n] then [] else [shown[n]])
  }

  /** The missed cards are among the cards answered, in the order they were shown. */
  lemma {:induction false} MissedSubsequence(shown: seq<HanziChar>, answers: seq<bool>)
    requires |answers| <= |shown|
    ensures IsSubsequence(Missed(shown, answers), shown[..|answers|])
    ensures forall h :: h in Missed(shown, answers) ==> h in shown[..|answers|]
    decreases |answers|
  {
    if answers != [] {
      var n := |answers| - 1;
      MissedSubsequence(shown, answers[..n]);
      var m := Missed(shown, answers[..n]);
      assert shown[..n + 1][..n] == shown[..n];
      assert shown[..n + 1] == shown[..n] + [shown[n]];
      if !answers[n] {
        assert (m + [shown[n]])[..|m|] == m;
      } else {
        assert m + [] == m;
      }
    }
  }

  /** Folding the missed cards of a session drawn from the bank into a stored
      list of bank characters gives a list of bank characters holding every
      missed character. */
  lemma MergeMissedFacts(bank: seq<HanziChar>, shown: seq<HanziChar>, missed: seq<HanziChar>,
                         stored: seq<string>)
    requires multiset(shown) <= multiset(bank)
    requires forall h :: h in missed ==> h in shown
    requires forall c :: c in stored ==> InBank(bank, c)
    ensures forall c :: c in Merge(stored, Chars(missed)) ==> InBank(bank, c)
    ensures forall h :: h in missed ==> h.character in Merge(stored, Chars(missed))
  {
    var chars := Chars(missed);
    forall c | c in chars ensures InBank(bank, c) {
      var i :| 0 <= i < |chars| && chars[i] == c;
      var h := missed[i];
      assert h in shown && multiset(shown)[h] > 0;
      assert h in bank;
    }
    forall h | h in missed ensures h.character in chars {
      var i :| 0 <= i < |missed| && missed[i] == h;
      assert chars[i] == h.character;
    }
  }

  /** The invariant of the state record: the index stays on a card of the set
      (or at 0 for an empty set), the set is drawn from the bank, the session
      record holds exactly the cards answered "not remembered", one answer per
      card passed in the quiz, and every stored character is in the bank. */
  ghost predicate SessionInvariant(bank: seq<HanziChar>, view: View, currentSet: seq<HanziChar>,
                                   currentIndex: nat, sessionForgotten: seq<HanziChar>,
                                   persistentForgotten: seq<string>, answers: seq<bool>)
  {
    && (currentIndex == 0 || currentIndex < |currentSet|)
    && multiset(currentSet) <= multiset(bank)
    && |answers| <= |currentSet|
    && sessionForgotten == Missed(currentSet, answers)
    && (view == Quiz ==> |answers| == currentIndex)
    && (forall c :: c in persistentForgotten ==> InBank(bank, c))
  }

  /** Answering a card that is not the last keeps the invariant with the index advanced. */
  lemma AdvancePreserves(bank: seq<HanziChar>, currentSet: seq<HanziChar>, currentIndex: nat,
                         session: seq<HanziChar>, stored: seq<string>, answers: seq<bool>,
                         remembered: bool, session': seq<HanziChar>)
    requires SessionInvariant(bank, Quiz, currentSet, currentIndex, session, stored, answers)
    requires currentIndex < |currentSet| - 1
    requires session' == session + (if remembered then [] else [currentSet[currentIndex]])
    ensures SessionInvariant(bank, Quiz, currentSet, currentIndex + 1, session', stored, answers + [remembered])
  {
  }

  /** Answering the last card keeps the invariant on the results screen: the
      session record is all the missed cards, and the merged list holds every
      missed character and, when duplicate-free before, the old list as a prefix. */
  lemma FinishPreserves(bank: seq<HanziChar>, currentSet: seq<HanziChar>, currentIndex: nat,
                        session: seq<HanziChar>, stored: seq<string>, answers: seq<bool>,
                        remembered: bool, session': seq<HanziChar>)
    requires SessionInvariant(bank, Quiz, currentSet, currentIndex, session, stored, answers)
    requires |currentSet| - 1 <= currentIndex < |currentSet|
    requires session' == session + (if remembered then [] else [currentSet[currentIndex]])
    ensures session' == Missed(currentSet, answers + [remembered])
    ensures SessionInvariant(bank, Results, currentSet, currentIndex, session',
                             Merge(stored, Chars(session')), answers + [remembered])
    ensures forall h :: h in session' ==> h.character in Merge(stored, Chars(session'))
    ensures NoDups(stored) ==> stored <= Merge(stored, Chars(session'))
  {
    MissedSubsequence(currentSet, answers + [remembered]);
    assert currentSet[..|answers| + 1] == currentSet;
    MergeKeepsStored(stored, Chars(session'));
    MergeMissedFacts(bank, currentSet, session', stored);
  }

  // ---------------------------------------------------------------------
  // The application state and its handlers.

  class AppState {
    /** The fixed character bank, never modified. */
    const bank: seq<HanziChar>

    var view: View
    var currentSet: seq<HanziChar>
    var currentIndex: nat
    var sessionForgotten: seq<HanziChar>
    var persistentForgotten: seq<string>

    /** The outcome of every card answered in the current session, in order. */
    ghost var answers: seq<bool>

    /** The invariant of the state record: see `SessionInvariant`. */
    ghost predicate Valid()
      reads this
    {
      SessionInvariant(bank, view, currentSet, currentIndex, sessionForgotten, persistentForgotten, answers)
    }

    /** The state on mount, before the stored list is loaded. */
    constructor (bank: seq<HanziChar>)
      ensures Valid()
      ensures this.bank == bank
      ensures view == Start && currentSet == [] && currentIndex == 0
      ensures sessionForgotten == [] && persistentForgotten == [] && answers == []
    {
      this.bank := bank;
      view := Start;
      currentSet := [];
      currentIndex := 0;
      sessionForgotten := [];
      persistentForgotten := [];
      answers := [];
    }

    /** The mount effect: `parsed` is the stored list once read and parsed, or
        `None` when nothing is stored or reading/parsing fails, in which case
        the state is left as it is. */
    method LoadStored(parsed: Option<seq<string>>)
      requires Valid()
      modifies this
      ensures Valid()
      ensures persistentForgotten ==
        (if parsed.Some? then FilterValid(parsed.value, bank) else old(persistentForgotten))
      ensures view == old(view) && currentSet == old(currentSet) && currentIndex == old(currentIndex)
      ensures sessionForgotten == old(sessionForgotten) && answers == old(answers)
    {
      if parsed.Some? {
        persistentForgotten := FilterValid(parsed.value, bank);
      }
    }

    /** `handleStartSession`, with `shuffled` standing for the bank after the
        random sort (some permutation of it). */
    method StartSession(shuffled: seq<HanziChar>)
      requires Valid()
      requires multiset(shuffled) == multiset(bank)
      modifies this
      ensures Valid()
      ensures view == Quiz && currentSet == SessionSubset(shuffled) && currentIndex == 0
      ensures sessionForgotten == [] && answers == []
      ensures persistentForgotten == old(persistentForgotten)
      ensures |currentSet| == Min(CHARS_PER_SET, |bank|)
      ensures NoDups(bank) ==> NoDups(currentSet)
    {
      SessionSubsetFromBank(bank, shuffled);
      view := Quiz;
      currentSet := SessionSubset(shuffled);
      currentIndex := 0;
      sessionForgotten := [];
      answers := [];
    }

    /** `handleNextChar`: record a miss, then advance or finish the session.
        Only the quiz screen offers the answer buttons, and it renders the
        card at `currentIndex`, so the index is on a card. */
    method NextChar(remembered: bool)
      requires Valid()
      requires view == Quiz && currentIndex < |currentSet|
      modifies this
      ensures Valid()
      ensures currentSet == old(currentSet)
      ensures sessionForgotten ==
        old(sessionForgotten) + (if remembered then [] else [old(currentSet[currentIndex])])
      ensures answers == old(answers) + [remembered]
      ensures old(currentIndex) < |currentSet| - 1 ==>
        && view == Quiz
        && currentIndex == old(currentIndex) + 1
        && persistentForgotten == old(persistentForgotten)
      ensures old(currentIndex) >= |currentSet| - 1 ==>
        && view == Results
        && currentIndex == old(currentIndex)
        && sessionForgotten == Missed(currentSet, answers)
        && persistentForgotten == Merge(old(persistentForgotten), Chars(sessionForgotten))
        && NoDups(persistentForgotten)
        && (forall h :: h in sessionForgotten ==> h.character in persistentForgotten)
        && (NoDups(old(persistentForgotten)) ==> old(persistentForgotten) <= persistentForgotten)
    {
      var currentHanzi := currentSet[currentIndex];
      var newSessionForgotten := sessionForgotten;
      if !remembered {
        newSessionForgotten := newSessionForgotten + [currentHanzi];
      }

      if currentIndex >= |currentSet| - 1 {
        var newForgottenChars := Chars(newSessionForgotten);
        FinishPreserves(bank, currentSet, currentIndex, sessionForgotten, persistentForgotten,
                        answers, remembered, newSessionForgotten);
        view := Results;
        sessionForgotten := newSessionForgotten;
        persistentForgotten := Merge(persistentForgotten, newForgottenChars);
      } else {
        AdvancePreserves(bank, currentSet, currentIndex, sessionForgotten, persistentForgotten,
                         answers, remembered, newSessionForgotten);
        sessionForgotten := newSessionForgotten;
        currentIndex := currentIndex + 1;
      }
      answers := answers + [remembered];
    }

    /** `handleClearHistory`: `confirmed` is the answer to the confirmation prompt. */
    method ClearHistory(confirmed: bool)
      requires Valid()
      modifies this
      ensures Valid()
      ensures persistentForgotten == if confirmed then [] else old(persistentForgotten)
      ensures view == old(view) && currentSet == old(currentSet) && currentIndex == old(currentIndex)
      ensures sessionForgotten == old(sessionForgotten) && answers == old(answers)
    {
      if confirmed {
        persistentForgotten := [];
      }
    }

    /** `handleGoHome`: quitting a session or leaving the results screen; the
        session is abandoned without touching the stored list. */
    method GoHome()
      requires Valid()
      modifies this
      ensures Valid()
      ensures view == Start
      ensures currentSet == old(currentSet) && currentIndex == old(currentIndex)
      ensures sessionForgotten == old(sessionForgotten) && answers == old(answers)
      ensures persistentForgotten == old(persistentForgotten)
    {
      view := Start;
    }

    /** The start screen's link to the results screen. */
    method GoToResults()
      requires Valid()
      modifies this
      ensures Valid()
      ensures view == Results
      ensures currentSet == old(currentSet) && currentIndex == old(currentIndex)
      ensures sessionForgotten == old(sessionForgotten) && answers == old(answers)
      ensures persistentForgotten == old(persistentForgotten)
    {
      view := Results;
    }
  }
}
