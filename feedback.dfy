/**
 * Letter feedback against the solution: the state of one tile of a submitted
 * row, and the colour of one key of the on-screen keyboard.  Both compare
 * position by position and ask only whether a letter occurs in the solution,
 * never how often, so one solution letter can light up several tiles.
 */
module Feedback {
  import opened Wrappers

  /** tileState's results; Blank is its empty string for a row with no guess. */
  datatype Tile = Blank | Correct | Present | Absent

  /** tileState(letter, pos, guess) for the fixed solution. */
  function TileState(solution: string, letter: char, pos: int, guess: Option<string>): (t: Tile)
    ensures t == Blank <==> guess.None? || guess.value == ""
    ensures t == Correct <==> t != Blank && 0 <= pos < |solution| && solution[pos] == letter
    ensures t == Present <==> t != Blank && !(0 <= pos < |solution| && solution[pos] == letter) && letter in solution
    ensures t == Absent <==> t != Blank && letter !in solution
  {
    if guess.None? || guess.value == "" then Blank
    else if 0 <= pos < |solution| && solution[pos] == letter then Correct
    else if letter in solution then Present
    else Absent
  }

  /** The states of the three tiles of a submitted row. */
  function RowTiles(solution: string, guess: string): (ts: seq<Tile>)
    requires |guess| == 3
    ensures |ts| == 3 && Blank !in ts
    ensures forall i :: 0 <= i < 3 ==> ts[i] == TileState(solution, guess[i], i, Some(guess))
    ensures |solution| == 3 ==> (ts == [Correct, Correct, Correct] <==> guess == solution)
  {
    [TileState(solution, guess[0], 0, Some(guess)),
     TileState(solution, guess[1], 1, Some(guess)),
     TileState(solution, guess[2], 2, Some(guess))]
  }

  /** Feedback is not limited by letter counts: one S in SFO marks two S tiles as present. */
  lemma TileExamples()
    ensures RowTiles("SFO", "FSO") == [Present, Present, Correct]
    ensures RowTiles("SFO", "SEA") == [Correct, Absent, Absent]
    ensures RowTiles("SFO", "SSS") == [Correct, Present, Present]
  {
  }

  /** The key colours, named by the colour values Hex gives them. */
  datatype KeyColor = Green | Yellow | Grey | Unused

  function Hex(c: KeyColor): string {
    match c
    case Green => "#4caf50"
    case Yellow => "#ffc107"
    case Grey => "#c0c0c0"
    case Unused => "#888"
  }

  /** Guess `g` has `letter` at position `i` (one of the three the scan looks at). */
  ghost predicate HitAt(guesses: seq<string>, letter: char, g: int, i: int)
    requires 0 <= g < |guesses|
  {
    0 <= i < 3 && i < |guesses[g]| && guesses[g][i] == letter
  }

  /** ... and the solution has it there too. */
  ghost predicate GreenAt(guesses: seq<string>, solution: string, letter: char, g: int, i: int)
    requires 0 <= g < |guesses|
  {
    HitAt(guesses, letter, g, i) && i < |solution| && solution[i] == letter
  }

  ghost predicate AnyGreen(guesses: seq<string>, solution: string, letter: char) {
    exists g, i :: 0 <= g < |guesses| && GreenAt(guesses, solution, letter, g, i)
  }

  ghost predicate AnyHit(guesses: seq<string>, letter: char) {
    exists g, i :: 0 <= g < |guesses| && HitAt(guesses, letter, g, i)
  }

  /**
   * The colour getKeyColor promises, stated without the scan: green if the
   * letter was ever guessed in its solution position, otherwise yellow or
   * grey if it was guessed at all (by whether the solution contains it),
   * otherwise the default.
   */
  ghost function KeyColorOf(guesses: seq<string>, solution: string, letter: char): KeyColor {
    if AnyGreen(guesses, solution, letter) then Green
    else if AnyHit(guesses, letter) then (if letter in solution then Yellow else Grey)
    else Unused
  }

  /**
   * getKeyColor: scans the guesses in order and each one's first three
   * positions, returns green at the first exact match, and otherwise keeps
   * the colour of the last occurrence.
   */
  method GetKeyColor(guesses: seq<string>, solution: string, letter: char) returns (color: string)
    ensures color == Hex(KeyColorOf(guesses, solution, letter))
  {
    var state: Option<KeyColor> := None;
    var g := 0;
    while g < |guesses|
      invariant 0 <= g <= |guesses|
      invariant forall h, i :: 0 <= h < g ==> !GreenAt(guesses, solution, letter, h, i)
      invariant state.None? <==> forall h, i :: 0 <= h < g ==> !HitAt(guesses, letter, h, i)
      invariant state.Some? ==> state.value == (if letter in solution then Yellow else Grey)
    {
      var guess := guesses[g];
      if letter in guess {
        var i := 0;
        while i < 3
          invariant 0 <= i <= 3
          invariant forall j :: 0 <= j < i ==> !GreenAt(guesses, solution, letter, g, j)
          invariant forall h, j :: 0 <= h < g ==> !GreenAt(guesses, solution, letter, h, j)
          invariant state.None? <==>
            (forall h, j :: 0 <= h < g ==> !HitAt(guesses, letter, h, j)) &&
            (forall j :: 0 <= j < i ==> !HitAt(guesses, letter, g, j))
          invariant state.Some? ==> state.value == (if letter in solution then Yellow else Grey)
        {
          if i < |guess| && guess[i] == letter {
            assert HitAt(guesses, letter, g, i);
            if i < |solution| && solution[i] == letter {
              assert GreenAt(guesses, solution, letter, g, i);
              return Hex(Green);
            }
            if letter in solution {
              state := Some(Yellow);
            } else {
              state := Some(Grey);
            }
          } else {
            assert !HitAt(guesses, letter, g, i);
          }
          i := i + 1;
        }
        assert forall j :: !GreenAt(guesses, solution, letter, g, j);
      } else {
        assert forall j :: !HitAt(guesses, letter, g, j);
      }
      g := g + 1;
    }
    color := Hex(state.GetOr(Unused));
  }

  /** For codes of three letters, the default colour means exactly that no guess contains the letter. */
  lemma UnusedIffNeverGuessed(guesses: seq<string>, solution: string, letter: char)
    requires forall g :: 0 <= g < |guesses| ==> |guesses[g]| == 3
    ensures KeyColorOf(guesses, solution, letter) == Unused <==>
            forall g :: 0 <= g < |guesses| ==> letter !in guesses[g]
  {
    if exists g :: 0 <= g < |guesses| && letter in guesses[g] {
      var g :| 0 <= g < |guesses| && letter in guesses[g];
      var i :| 0 <= i < |guesses[g]| && guesses[g][i] == letter;
      assert HitAt(guesses, letter, g, i);
    }
  }

  /** A green key is a letter that some submitted row shows as a correct tile. */
  lemma GreenIffCorrectTile(guesses: seq<string>, solution: string, letter: char)
    requires forall g :: 0 <= g < |guesses| ==> |guesses[g]| == 3
    ensures KeyColorOf(guesses, solution, letter) == Green <==>
            exists g, i :: 0 <= g < |guesses| && 0 <= i < 3 && guesses[g][i] == letter &&
                           TileState(solution, letter, i, Some(guesses[g])) == Correct
  {
    if exists g, i :: 0 <= g < |guesses| && 0 <= i < 3 && guesses[g][i] == letter &&
                      TileState(solution, letter, i, Some(guesses[g])) == Correct {
      var g, i :| 0 <= g < |guesses| && 0 <= i < 3 && guesses[g][i] == letter &&
                  TileState(solution, letter, i, Some(guesses[g])) == Correct;
      assert GreenAt(guesses, solution, letter, g, i);
    }
  }

  /** A key that is neither green nor unused is yellow exactly when the solution contains the letter. */
  lemma YellowIffInSolution(guesses: seq<string>, solution: string, letter: char)
    requires KeyColorOf(guesses, solution, letter) !in {Green, Unused}
    ensures KeyColorOf(guesses, solution, letter) == Yellow <==> letter in solution
    ensures KeyColorOf(guesses, solution, letter) == Grey <==> letter !in solution
  {
  }
}
