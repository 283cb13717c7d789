/**
 * The game engine of the airport-code guessing game: the state a page keeps
 * for one player, restoring it from storage when the catalog has loaded,
 * submitting a guess and handling a key press.  Each handler is one atomic
 * update of the state.
 */
module Game {
  import opened Wrappers
  import opened Text
  import opened Catalog
  import opened Daily
  import opened Board

  datatype Status = Playing | Won | Lost

  /** What the page knows once the catalog has arrived; it does not change afterwards. */
  datatype Setup = Setup(codes: seq<string>, solution: Option<string>)

  /**
   * The player's state: the submitted guesses, the letters typed so far, the
   * status, and the two storage entries (the date as a day number and the
   * stored guesses; None when an entry is absent).
   */
  datatype State = State(guesses: seq<string>, current: string, status: Status,
                         storedDate: Option<int>, storedGuesses: Option<seq<string>>)

  /** The page before the catalog arrives: nothing guessed, with whatever storage holds. */
  function Fresh(storedDate: Option<int>, storedGuesses: Option<seq<string>>): State {
    State([], "", Playing, storedDate, storedGuesses)
  }

  /** guesses.includes(solution); an undefined solution is in no list of strings. */
  predicate Includes(guesses: seq<string>, solution: Option<string>) {
    solution.Some? && solution.value in guesses
  }

  /** The status a list of guesses stands for: won if it holds the solution, lost once it is full. */
  function DerivedStatus(guesses: seq<string>, solution: Option<string>): Status {
    if Includes(guesses, solution) then Won
    else if |guesses| >= MAX_GUESSES then Lost
    else Playing
  }

  /**
   * Restoring at load: when the stored date is today, the stored guesses
   * (or none, for a missing entry) replace the guesses, and the status
   * becomes won or lost by them; a playing status is left as it was.
   */
  function Restored(s: State, solution: Option<string>, today: int): (r: State)
    ensures s.storedDate != Some(today) ==> r == s
    ensures s.storedDate == Some(today) ==>
      r.guesses == s.storedGuesses.GetOr([]) &&
      r.current == s.current && r.storedDate == s.storedDate && r.storedGuesses == s.storedGuesses &&
      r.status == (if DerivedStatus(r.guesses, solution) != Playing then DerivedStatus(r.guesses, solution) else s.status)
  {
    if s.storedDate == Some(today) then
      var gs := s.storedGuesses.GetOr([]);
      s.(guesses := gs,
         status := if Includes(gs, solution) then Won
                   else if |gs| >= MAX_GUESSES then Lost
                   else s.status)
    else s
  }

  /** How submitGuess treats the typed text: ignored, refused with an alert, or accepted. */
  datatype Outcome = Ignored | UnknownCode | Accepted

  function Classify(setup: Setup, s: State): (o: Outcome)
    ensures o == Accepted <==> s.status == Playing && |ToUpper(s.current)| == 3 && ToUpper(s.current) in setup.codes
    ensures o == UnknownCode <==> s.status == Playing && |ToUpper(s.current)| == 3 && ToUpper(s.current) !in setup.codes
  {
    var guess := ToUpper(s.current);
    if |guess| != 3 || s.status != Playing then Ignored
    else if guess !in setup.codes then UnknownCode
    else Accepted
  }

  /** submitGuess, with `today` the day number of the moment it runs. */
  function Submitted(setup: Setup, s: State, today: int): (r: State)
    ensures s.status != Playing ==> r == s
    ensures |s.guesses| <= |r.guesses| <= |s.guesses| + 1 && r.guesses[..|s.guesses|] == s.guesses
    ensures forall i :: |s.guesses| <= i < |r.guesses| ==> r.guesses[i] in setup.codes
    ensures r.current == s.current || r.current == ""
    ensures r.guesses != s.guesses ==> r.storedDate == Some(today) && r.storedGuesses == Some(r.guesses)
  {
    var guess := ToUpper(s.current);
    match Classify(setup, s)
    case Ignored => s
    case UnknownCode => s.(current := "")
    case Accepted =>
      var next := s.guesses + [guess];
      s.(guesses := next, current := "", storedDate := Some(today), storedGuesses := Some(next),
         status := if Some(guess) == setup.solution then Won
                   else if |next| >= MAX_GUESSES then Lost
                   else s.status)
  }

  /** A key name the letter test /^[A-Z]$/ accepts. */
  predicate IsLetterKey(k: string): (b: bool)
    ensures b ==> |k| == 1 && IsCodeLetter(k[0]) && ToUpper(k) == k
  {
    |k| == 1 && 'A' <= k[0] <= 'Z'
  }

  /** c.slice(0, -1): the text without its last character; the empty text stays empty. */
  function DropLast(c: string): (r: string)
    ensures c == [] ==> r == []
    ensures c != [] ==> r + [c[|c| - 1]] == c
  {
    if c == [] then [] else c[..|c| - 1]
  }

  /** handleKey(k) at the moment whose day number is `today`. */
  function KeyPressed(setup: Setup, s: State, k: string, today: int): (r: State)
    ensures s.status != Playing ==> r == s
    ensures |s.guesses| <= |r.guesses| <= |s.guesses| + 1 && r.guesses[..|s.guesses|] == s.guesses
    ensures forall i :: |s.guesses| <= i < |r.guesses| ==> r.guesses[i] in setup.codes
    ensures |s.current| <= 3 ==> |r.current| <= 3
  {
    if s.status != Playing then s
    else
      var key := ToUpper(k);
      if key == "BACKSPACE" then s.(current := DropLast(s.current))
      else if key == "ENTER" then Submitted(setup, s, today)
      else if IsLetterKey(key) && |s.current| < 3 then s.(current := s.current + key)
      else s
  }

  /** A key event: the key's name and the time it arrives. */
  datatype Press = Press(key: string, nowMs: int)

  /** The state after a sequence of key events. */
  function Run(setup: Setup, s: State, presses: seq<Press>): (r: State)
    ensures |s.guesses| <= |r.guesses|
    decreases |presses|
  {
    if presses == [] then s
    else Run(setup, KeyPressed(setup, s, presses[0].key, DayNumber(presses[0].nowMs)), presses[1..])
  }

  // ----- One submission -----

  /** A text that is not three characters, or a finished game, changes nothing at all. */
  lemma SubmitIgnored(setup: Setup, s: State, today: int)
    requires |ToUpper(s.current)| != 3 || s.status != Playing
    ensures Submitted(setup, s, today) == s
  {
  }

  /** An unknown code clears the input and keeps guesses, status and storage. */
  lemma SubmitUnknown(setup: Setup, s: State, today: int)
    requires |ToUpper(s.current)| == 3 && s.status == Playing && ToUpper(s.current) !in setup.codes
    ensures Submitted(setup, s, today) == s.(current := "")
  {
  }

  /**
   * A known code is appended as it is, the input is cleared, storage holds
   * today and the new list, and the game is won exactly when the guess is
   * the solution, else lost exactly when six guesses are used.
   */
  lemma SubmitAccepted(setup: Setup, s: State, today: int)
    requires |ToUpper(s.current)| == 3 && s.status == Playing && ToUpper(s.current) in setup.codes
    ensures var t := Submitted(setup, s, today);
      t.guesses == s.guesses + [ToUpper(s.current)] && t.current == "" &&
      t.storedDate == Some(today) && t.storedGuesses == Some(t.guesses) &&
      (t.status == Won <==> Some(ToUpper(s.current)) == setup.solution) &&
      (t.status != Won ==> (t.status == Lost <==> |t.guesses| >= MAX_GUESSES))
  {
  }

  /**
   * While playing: BACKSPACE removes the last typed character and nothing
   * else; a letter key appends exactly that letter iff fewer than three are
   * typed; any key other than ENTER, BACKSPACE and a letter changes nothing.
   */
  lemma KeyEffects(setup: Setup, s: State, k: string, today: int)
    requires s.status == Playing
    ensures var r := KeyPressed(setup, s, k, today);
      (ToUpper(k) == "BACKSPACE" ==>
         r.(current := s.current) == s && (s.current == [] ==> r.current == []) &&
         (s.current != [] ==> r.current + [s.current[|s.current| - 1]] == s.current)) &&
      (IsLetterKey(ToUpper(k)) ==>
         r.(current := s.current) == s && (r.current == s.current + ToUpper(k) <==> |s.current| < 3) &&
         (|s.current| >= 3 ==> r == s)) &&
      (ToUpper(k) != "BACKSPACE" && ToUpper(k) != "ENTER" && !IsLetterKey(ToUpper(k)) ==> r == s)
  {
    if IsLetterKey(ToUpper(k)) {
      assert |s.current + ToUpper(k)| != |s.current|;
    }
  }

  // ----- The status invariant -----

  /** The status agrees with the guesses: the rule used at restore time holds all along. */
  predicate Consistent(setup: Setup, s: State) {
    s.status == DerivedStatus(s.guesses, setup.solution)
  }

  /** A game still being played has attempts left. */
  lemma PlayingHasAttemptsLeft(setup: Setup, s: State)
    requires Consistent(setup, s) && s.status == Playing
    ensures |s.guesses| < MAX_GUESSES && !Includes(s.guesses, setup.solution)
  {
  }

  /** The page's state, restored on the day of loading, is consistent. */
  lemma RestoredConsistent(setup: Setup, storedDate: Option<int>, storedGuesses: Option<seq<string>>, today: int)
    ensures Consistent(setup, Restored(Fresh(storedDate, storedGuesses), setup.solution, today))
  {
  }

  lemma SubmitPreserves(setup: Setup, s: State, today: int)
    requires Consistent(setup, s)
    ensures Consistent(setup, Submitted(setup, s, today))
    ensures |s.guesses| <= MAX_GUESSES ==> |Submitted(setup, s, today).guesses| <= MAX_GUESSES
  {
    if Classify(setup, s) == Accepted {
      var guess := ToUpper(s.current);
      assert Submitted(setup, s, today).guesses == s.guesses + [guess];
      assert Includes(s.guesses + [guess], setup.solution) <==>
             Includes(s.guesses, setup.solution) || Some(guess) == setup.solution;
    }
  }

  lemma KeyPreserves(setup: Setup, s: State, k: string, today: int)
    requires Consistent(setup, s)
    ensures Consistent(setup, KeyPressed(setup, s, k, today))
    ensures |s.guesses| <= MAX_GUESSES ==> |KeyPressed(setup, s, k, today).guesses| <= MAX_GUESSES
  {
    if s.status == Playing && ToUpper(k) == "ENTER" {
      SubmitPreserves(setup, s, today);
    }
  }

  /**
   * Along any sequence of key events the status stays consistent with the
   * guesses, and a game that starts with at most six guesses never has more.
   */
  lemma {:induction false} RunPreserves(setup: Setup, s: State, presses: seq<Press>)
    requires Consistent(setup, s)
    ensures Consistent(setup, Run(setup, s, presses))
    ensures |s.guesses| <= MAX_GUESSES ==> |Run(setup, s, presses).guesses| <= MAX_GUESSES
    decreases |presses|
  {
    if presses != [] {
      var t := KeyPressed(setup, s, presses[0].key, DayNumber(presses[0].nowMs));
      KeyPreserves(setup, s, presses[0].key, DayNumber(presses[0].nowMs));
      RunPreserves(setup, t, presses[1..]);
    }
  }

  /** Once won or lost, no key changes anything, so the status never leaves won or lost. */
  lemma {:induction false} FinishedIsFinal(setup: Setup, s: State, presses: seq<Press>)
    requires s.status != Playing
    ensures Run(setup, s, presses) == s
    decreases |presses|
  {
    if presses != [] {
      FinishedIsFinal(setup, s, presses[1..]);
    }
  }

  /** Key input alone never makes the typed text longer than three characters. */
  lemma {:induction false} CurrentStaysShort(setup: Setup, s: State, presses: seq<Press>)
    requires |s.current| <= 3
    ensures |Run(setup, s, presses).current| <= 3
    decreases |presses|
  {
    if presses != [] {
      var t := KeyPressed(setup, s, presses[0].key, DayNumber(presses[0].nowMs));
      assert |t.current| <= 3;
      CurrentStaysShort(setup, t, presses[1..]);
    }
  }

  /** Guesses are only ever appended, and only catalog codes are appended. */
  lemma {:induction false} GuessesOnlyGrowByCodes(setup: Setup, s: State, presses: seq<Press>)
    ensures var t := Run(setup, s, presses);
      |s.guesses| <= |t.guesses| && t.guesses[..|s.guesses|] == s.guesses &&
      forall i :: |s.guesses| <= i < |t.guesses| ==> t.guesses[i] in setup.codes
    decreases |presses|
  {
    if presses != [] {
      var t := KeyPressed(setup, s, presses[0].key, DayNumber(presses[0].nowMs));
      assert |s.guesses| <= |t.guesses| && t.guesses[..|s.guesses|] == s.guesses;
      assert forall i :: |s.guesses| <= i < |t.guesses| ==> t.guesses[i] in setup.codes;
      GuessesOnlyGrowByCodes(setup, t, presses[1..]);
      var u := Run(setup, t, presses[1..]);
      assert u.guesses[..|s.guesses|] == u.guesses[..|t.guesses|][..|s.guesses|];
    }
  }

  /**
   * Reloading the page on the day of an accepted guess, at any time of that
   * day, restores exactly the guesses that guess left.
   */
  lemma ReloadRestoresGuesses(setup: Setup, s: State, nowMs: int, reloadMs: int)
    requires Classify(setup, s) == Accepted && DayNumber(reloadMs) == DayNumber(nowMs)
    ensures var t := Submitted(setup, s, DayNumber(nowMs));
      Restored(Fresh(t.storedDate, t.storedGuesses), TodaySolution(setup.codes, reloadMs), DayNumber(reloadMs)).guesses
        == t.guesses
  {
  }

  /**
   * When the page was also loaded that day, so that the guess was scored
   * against the reload's solution, the reload restores the status too.
   */
  lemma ReloadRestores(setup: Setup, s: State, nowMs: int, reloadMs: int)
    requires Consistent(setup, s) && Classify(setup, s) == Accepted
    requires DayNumber(reloadMs) == DayNumber(nowMs) && setup.solution == TodaySolution(setup.codes, reloadMs)
    ensures var t := Submitted(setup, s, DayNumber(nowMs));
      var r := Restored(Fresh(t.storedDate, t.storedGuesses), TodaySolution(setup.codes, reloadMs), DayNumber(reloadMs));
      r.guesses == t.guesses && r.status == t.status
  {
    SubmitPreserves(setup, s, DayNumber(nowMs));
  }

  /**
   * A page left open past UTC midnight scores a guess against the previous
   * day's solution but stores it under the new date, so a reload scores it
   * again against the new solution.  Catalog AAA, BBB; page loaded on
   * 2025-01-01 (solution AAA); BBB submitted on 2025-01-02 leaves the game
   * playing, and a reload that day, whose solution is BBB, restores it as won.
   */
  lemma MidnightReloadRescores()
    ensures var codes := ["AAA", "BBB"];
      var setup := Setup(codes, TodaySolution(codes, EPOCH_MS));
      var s := State([], "BBB", Playing, None, None);
      var t := Submitted(setup, s, DayNumber(EPOCH_MS + MS_PER_DAY));
      var r := Restored(Fresh(t.storedDate, t.storedGuesses), TodaySolution(codes, EPOCH_MS + MS_PER_DAY),
                        DayNumber(EPOCH_MS + MS_PER_DAY));
      t.guesses == ["BBB"] && t.status == Playing && r.guesses == ["BBB"] && r.status == Won
  {
    var codes := ["AAA", "BBB"];
    assert TodaySolution(codes, EPOCH_MS) == Some("AAA") by { assert DayIndex(EPOCH_MS) == 0; }
    assert TodaySolution(codes, EPOCH_MS + MS_PER_DAY) == Some("BBB") by {
      assert DayIndex(EPOCH_MS + MS_PER_DAY) == 1;
    }
    assert ToUpper("BBB") == "BBB";
  }

  /**
   * A whole page session: restore at load, then any key events.  The status
   * always matches the guesses, and with at most six stored guesses (or none
   * restored) there are never more than six.
   */
  lemma SessionInvariant(setup: Setup, storedDate: Option<int>, storedGuesses: Option<seq<string>>,
                         today: int, presses: seq<Press>)
    requires storedGuesses.Some? ==> |storedGuesses.value| <= MAX_GUESSES
    ensures var t := Run(setup, Restored(Fresh(storedDate, storedGuesses), setup.solution, today), presses);
      Consistent(setup, t) && |t.guesses| <= MAX_GUESSES
      && (t.status == Playing ==> |t.guesses| < MAX_GUESSES)
  {
    var s := Restored(Fresh(storedDate, storedGuesses), setup.solution, today);
    RestoredConsistent(setup, storedDate, storedGuesses, today);
    RunPreserves(setup, s, presses);
  }

  /**
   * The game component.  The fields are the component's state and the two
   * storage entries it writes.
   */
  class AirportWordle {
    var codes: seq<string>
    var solution: Option<string>
    var guesses: seq<string>
    var current: string
    var status: Status
    var storedDate: Option<int>
    var storedGuesses: Option<seq<string>>

    function Current(): State
      reads this
    {
      State(guesses, current, status, storedDate, storedGuesses)
    }

    function CurrentSetup(): Setup
      reads this
    {
      Setup(codes, solution)
    }

    /** The component's first render, with the given storage contents. */
    constructor (storedDate0: Option<int>, storedGuesses0: Option<seq<string>>)
      ensures codes == [] && solution == Some("")
      ensures Current() == Fresh(storedDate0, storedGuesses0)
    {
      codes, solution := [], Some("");
      guesses, current, status := [], "", Playing;
      storedDate, storedGuesses := storedDate0, storedGuesses0;
    }

    /** The effect run when the list's text arrives at time `nowMs`. */
    method Load(text: string, nowMs: int)
      modifies this
      ensures codes == ParseCatalog(text)
      ensures solution == TodaySolution(codes, nowMs)
      ensures Current() == Restored(old(Current()), solution, DayNumber(nowMs))
    {
      var list := ParseCatalog(text);
      codes := list;
      var todaySolution := TodaySolution(list, nowMs);
      solution := todaySolution;
      var todayIso := DayNumber(nowMs);
      if storedDate == Some(todayIso) {
        var gs := storedGuesses.GetOr([]);
        guesses := gs;
        if Includes(gs, todaySolution) {
          status := Won;
        } else if |gs| >= MAX_GUESSES {
          status := Lost;
        }
      }
    }

    /** submitGuess, run at time `nowMs`; the outcome stands for the alert. */
    method SubmitGuess(nowMs: int) returns (outcome: Outcome)
      modifies this
      ensures codes == old(codes) && solution == old(solution)
      ensures outcome == Classify(CurrentSetup(), old(Current()))
      ensures Current() == Submitted(CurrentSetup(), old(Current()), DayNumber(nowMs))
    {
      var guess := ToUpper(current);
      if |guess| != 3 || status != Playing {
        return Ignored;
      }
      if guess !in codes {
        current := "";
        return UnknownCode;
      }
      var next := guesses + [guess];
      guesses := next;
      current := "";
      var todayIso := DayNumber(nowMs);
      storedDate := Some(todayIso);
      storedGuesses := Some(next);
      if Some(guess) == solution {
        status := Won;
      } else if |next| >= MAX_GUESSES {
        status := Lost;
      }
      outcome := Accepted;
    }

    /** handleKey, run at time `nowMs`. */
    method HandleKey(k: string, nowMs: int)
      modifies this
      ensures codes == old(codes) && solution == old(solution)
      ensures Current() == KeyPressed(CurrentSetup(), old(Current()), k, DayNumber(nowMs))
    {
      if status != Playing {
        return;
      }
      var key := ToUpper(k);
      if key == "BACKSPACE" {
        current := DropLast(current);
      } else if key == "ENTER" {
        var _ := SubmitGuess(nowMs);
      } else if IsLetterKey(key) && |current| < 3 {
        current := current + key;
      }
    }
  }
}
