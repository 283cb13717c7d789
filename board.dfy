/** The grid of the board: always MAX_GUESSES rows of text, one per attempt. */
module Board {

  const MAX_GUESSES: int := 6

  /** String.prototype.padEnd with spaces. */
  function PadEnd(s: string, n: nat): (r: string)
    ensures |r| == if |s| >= n then |s| else n
    ensures r[..|s|] == s
    ensures forall i :: |s| <= i < |r| ==> r[i] == ' '
  {
    if |s| >= n then s else s + seq(n - |s|, _ => ' ')
  }

  /**
   * rows: row i shows guess i when there is one (and it is not empty), the
   * padded input at the first free row, and three spaces below it.
   */
  function Rows(guesses: seq<string>, current: string): (rows: seq<string>)
    ensures |rows| == MAX_GUESSES
  {
    seq(MAX_GUESSES, i requires 0 <= i < MAX_GUESSES =>
      if i < |guesses| && guesses[i] != "" then guesses[i]
      else if i == |guesses| then PadEnd(current, 3)
      else "   ")
  }

  /** With three-letter guesses and at most three typed letters, the grid is MAX_GUESSES rows of three. */
  lemma RowsShape(guesses: seq<string>, current: string)
    requires forall g :: 0 <= g < |guesses| ==> |guesses[g]| == 3
    requires |current| <= 3
    ensures |Rows(guesses, current)| == MAX_GUESSES
    ensures forall i :: 0 <= i < MAX_GUESSES ==> |Rows(guesses, current)[i]| == 3
    ensures forall i :: 0 <= i < |guesses| && i < MAX_GUESSES ==> Rows(guesses, current)[i] == guesses[i]
    ensures |guesses| < MAX_GUESSES ==>
      Rows(guesses, current)[|guesses|][..|current|] == current &&
      forall j :: |current| <= j < 3 ==> Rows(guesses, current)[|guesses|][j] == ' '
    ensures forall i :: |guesses| < i < MAX_GUESSES ==> Rows(guesses, current)[i] == "   "
  {
  }
}
