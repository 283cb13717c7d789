/**
 * The code catalog: the text of the airport list is split into lines, each
 * line is trimmed and upper-cased, and only the lines that are then exactly
 * three letters A-Z are kept, in order and with repetitions.
 */
module Catalog {
  import opened Text

  /** What a line becomes before it is tested: trimmed, then upper-cased. */
  function Normalize(line: string): string {
    ToUpper(Trim(line))
  }

  predicate IsCodeLetter(c: char) {
    'A' <= c <= 'Z'
  }

  /** The test /^[A-Z]{3}$/. */
  predicate IsCode(s: string) {
    |s| == 3 && IsCodeLetter(s[0]) && IsCodeLetter(s[1]) && IsCodeLetter(s[2])
  }

  /** The map step: every line in its normal form, position by position. */
  function NormalizeAll(lines: seq<string>): (ns: seq<string>)
    ensures |ns| == |lines|
  {
    seq(|lines|, k requires 0 <= k < |lines| => Normalize(lines[k]))
  }

  /** The filter step: the normalized lines that are codes, in order. */
  function KeepCodes(ns: seq<string>): (r: seq<string>)
    ensures |r| <= |ns|
    ensures forall k :: 0 <= k < |r| ==> IsCode(r[k])
  {
    if ns == [] then []
    else (if IsCode(ns[0]) then [ns[0]] else []) + KeepCodes(ns[1..])
  }

  /** The map-then-filter over the lines. */
  function FilterCodes(lines: seq<string>): (r: seq<string>)
    ensures |r| <= |lines|
    ensures forall k :: 0 <= k < |r| ==> IsCode(r[k])
  {
    KeepCodes(NormalizeAll(lines))
  }

  /** The catalog parsed from the list's text. */
  function ParseCatalog(text: string): (r: seq<string>)
    ensures |r| <= 1 + multiset(text)['\n']
    ensures forall k :: 0 <= k < |r| ==> IsCode(r[k])
  {
    FilterCodes(SplitLines(text))
  }

  /** The filter step works entry by entry. */
  lemma {:induction false} KeepCodesAppend(a: seq<string>, b: seq<string>)
    ensures KeepCodes(a + b) == KeepCodes(a) + KeepCodes(b)
  {
    if a == [] {
      assert a + b == b;
    } else {
      assert (a + b)[0] == a[0] && (a + b)[1..] == a[1..] + b;
      KeepCodesAppend(a[1..], b);
    }
  }

  /** The filter works line by line: order is kept and nothing is merged across lines. */
  lemma FilterCodesAppend(a: seq<string>, b: seq<string>)
    ensures FilterCodes(a + b) == FilterCodes(a) + FilterCodes(b)
  {
    assert NormalizeAll(a + b) == NormalizeAll(a) + NormalizeAll(b) by {
      forall k | 0 <= k < |a + b|
        ensures NormalizeAll(a + b)[k] == (NormalizeAll(a) + NormalizeAll(b))[k]
      {
        if k >= |a| { assert (a + b)[k] == b[k - |a|]; }
      }
    }
    KeepCodesAppend(NormalizeAll(a), NormalizeAll(b));
  }

  /** The positions of the entries that are codes, in increasing order. */
  function CodeIndices(ns: seq<string>): (idx: seq<int>)
    ensures forall j :: 0 <= j < |idx| ==> 0 <= idx[j] < |ns|
  {
    if ns == [] then []
    else
      var rest := CodeIndices(ns[1..]);
      (if IsCode(ns[0]) then [0] else []) + seq(|rest|, j requires 0 <= j < |rest| => rest[j] + 1)
  }

  /** The code positions strictly increase. */
  lemma {:induction false} CodeIndicesIncreasing(ns: seq<string>)
    ensures forall i, j :: 0 <= i < j < |CodeIndices(ns)| ==> CodeIndices(ns)[i] < CodeIndices(ns)[j]
  {
    if ns != [] {
      CodeIndicesIncreasing(ns[1..]);
    }
  }

  /** A position is listed exactly when its entry is a code. */
  lemma {:induction false} CodeIndicesMember(ns: seq<string>, k: int)
    requires 0 <= k < |ns|
    ensures k in CodeIndices(ns) <==> IsCode(ns[k])
  {
    var rest := CodeIndices(ns[1..]);
    var shifted := seq(|rest|, j requires 0 <= j < |rest| => rest[j] + 1);
    assert CodeIndices(ns) == (if IsCode(ns[0]) then [0] else []) + shifted;
    if k > 0 {
      CodeIndicesMember(ns[1..], k - 1);
      assert ns[k] == ns[1..][k - 1];
      if k - 1 in rest {
        var j :| 0 <= j < |rest| && rest[j] == k - 1;
        assert shifted[j] == k;
      }
      if k in shifted {
        var j :| 0 <= j < |shifted| && shifted[j] == k;
        assert rest[j] == k - 1;
      }
    } else {
      assert 0 !in shifted;
    }
  }

  /** Entry j of the filtered list is the entry at the j-th code position. */
  lemma {:induction false} KeepCodesAtIndices(ns: seq<string>)
    ensures |CodeIndices(ns)| == |KeepCodes(ns)|
    ensures forall j :: 0 <= j < |KeepCodes(ns)| ==> KeepCodes(ns)[j] == ns[CodeIndices(ns)[j]]
  {
    if ns != [] {
      KeepCodesAtIndices(ns[1..]);
      var rest := CodeIndices(ns[1..]);
      var tail := KeepCodes(ns[1..]);
      var shifted := seq(|rest|, j requires 0 <= j < |rest| => rest[j] + 1);
      forall j | 0 <= j < |rest| ensures tail[j] == ns[shifted[j]] {
        assert ns[shifted[j]] == ns[1..][rest[j]];
      }
    }
  }

  /**
   * The catalog is the subsequence of normalized lines at the positions of the
   * code lines: those positions strictly increase, they are exactly the lines
   * whose normal form is a code, and entry j is the normal form of line idx[j].
   */
  lemma FilterCodesSubsequence(lines: seq<string>)
    ensures var r, idx := FilterCodes(lines), CodeIndices(NormalizeAll(lines));
      |idx| == |r| &&
      (forall j :: 0 <= j < |r| ==> 0 <= idx[j] < |lines| && r[j] == Normalize(lines[idx[j]])) &&
      (forall i, j :: 0 <= i < j < |idx| ==> idx[i] < idx[j]) &&
      (forall k :: 0 <= k < |lines| ==> (k in idx <==> IsCode(Normalize(lines[k]))))
  {
    var ns := NormalizeAll(lines);
    KeepCodesAtIndices(ns);
    CodeIndicesIncreasing(ns);
    forall k | 0 <= k < |lines| ensures k in CodeIndices(ns) <==> IsCode(Normalize(lines[k])) {
      CodeIndicesMember(ns, k);
    }
  }

  /** A string survives the filter step iff it is a code and among the entries. */
  lemma {:induction false} KeepCodesMember(ns: seq<string>, c: string)
    ensures c in KeepCodes(ns) <==> IsCode(c) && c in ns
  {
    if ns != [] {
      KeepCodesMember(ns[1..], c);
      assert ns == [ns[0]] + ns[1..];
    }
  }

  /** A string is in the catalog iff it is a code and some line normalizes to it. */
  lemma FilterCodesMember(lines: seq<string>, c: string)
    ensures c in FilterCodes(lines) <==> IsCode(c) && exists k :: 0 <= k < |lines| && Normalize(lines[k]) == c
  {
    var ns := NormalizeAll(lines);
    KeepCodesMember(ns, c);
    if c in ns {
      var k :| 0 <= k < |ns| && ns[k] == c;
      assert Normalize(lines[k]) == c;
    }
    if exists k :: 0 <= k < |lines| && Normalize(lines[k]) == c {
      var k :| 0 <= k < |lines| && Normalize(lines[k]) == c;
      assert ns[k] == c;
    }
  }

  /** A code is its own normal form. */
  lemma NormalizeCode(c: string)
    requires IsCode(c)
    ensures Normalize(c) == c
  {
    TrimUnpadded(c);
    assert ToUpper(c) == c by {
      forall i | 0 <= i < 3 ensures UpperChar(c[i]) == c[i] { }
    }
  }

  /** The filter step keeps a list of codes whole. */
  lemma {:induction false} KeepCodesOfCodes(ns: seq<string>)
    requires forall k :: 0 <= k < |ns| ==> IsCode(ns[k])
    ensures KeepCodes(ns) == ns
  {
    if ns != [] {
      KeepCodesOfCodes(ns[1..]);
    }
  }

  /** Lines that are already codes all survive, duplicates included, in their order. */
  lemma FilterCodesKeepsCodes(lines: seq<string>)
    requires forall k :: 0 <= k < |lines| ==> IsCode(lines[k])
    ensures FilterCodes(lines) == lines
  {
    assert NormalizeAll(lines) == lines by {
      forall k | 0 <= k < |lines| ensures NormalizeAll(lines)[k] == lines[k] {
        NormalizeCode(lines[k]);
      }
    }
    KeepCodesOfCodes(lines);
  }

  /** Leading padding is trimmed and lower case is raised. */
  lemma NormalizeLeadingPad()
    ensures Normalize(" lax") == "LAX"
  {
    assert Trim(" lax") == "lax";
  }

  /** Trailing padding is trimmed and lower case is raised. */
  lemma NormalizeTrailingPad()
    ensures Normalize("sfo ") == "SFO"
  {
    assert Trim("sfo ") == "sfo";
  }

  /** Four letters, an empty line and a digit are not codes once normalized. */
  lemma NormalizeJunk()
    ensures !IsCode(Normalize("JFKX")) && !IsCode(Normalize("")) && !IsCode(Normalize("OR1"))
  {
    TrimUnpadded("JFKX");
    TrimUnpadded("OR1");
  }

  /** The filter step drops a list without codes entirely. */
  lemma {:induction false} KeepCodesOfJunk(ns: seq<string>)
    requires forall k :: 0 <= k < |ns| ==> !IsCode(ns[k])
    ensures KeepCodes(ns) == []
  {
    if ns != [] {
      KeepCodesOfJunk(ns[1..]);
    }
  }

  /** The normal forms of the code lines of FilterExample. */
  lemma ExampleCodeForms()
    ensures NormalizeAll([" lax", "SFO", "sfo "]) == ["LAX", "SFO", "SFO"]
  {
    NormalizeLeadingPad();
    NormalizeCode("SFO");
    NormalizeTrailingPad();
  }

  /** The normal forms of the junk lines of FilterExample are not codes. */
  lemma ExampleJunkForms()
    ensures forall k :: 0 <= k < 3 ==> !IsCode(NormalizeAll(["JFKX", "", "OR1"])[k])
  {
    NormalizeJunk();
  }

  /** Padded, lower-case and duplicate codes are all kept, upper-cased. */
  lemma FilterExampleCodes()
    ensures FilterCodes([" lax", "SFO", "sfo "]) == ["LAX", "SFO", "SFO"]
  {
    ExampleCodeForms();
    KeepCodesOfCodes(["LAX", "SFO", "SFO"]);
  }

  /** Four letters, an empty line and a digit are all dropped. */
  lemma FilterExampleJunk()
    ensures FilterCodes(["JFKX", "", "OR1"]) == []
  {
    ExampleJunkForms();
    KeepCodesOfJunk(NormalizeAll(["JFKX", "", "OR1"]));
  }

  /** A worked example: padding, lower case, a duplicate and junk lines. */
  lemma FilterExample()
    ensures FilterCodes([" lax", "SFO", "sfo ", "JFKX", "", "OR1"]) == ["LAX", "SFO", "SFO"]
  {
    FilterExampleCodes();
    FilterExampleJunk();
    FilterCodesAppend([" lax", "SFO", "sfo "], ["JFKX", "", "OR1"]);
    assert [" lax", "SFO", "sfo "] + ["JFKX", "", "OR1"] == [" lax", "SFO", "sfo ", "JFKX", "", "OR1"];
  }
}
