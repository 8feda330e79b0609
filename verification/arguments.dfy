/**
 * The command-line argument table (utils/arguments.cpp): every token that
 * starts with '-' is a flag; a token without the dash is the value of the
 * most recent flag before it.
 */
module Arguments {
  import opened Wrappers

  /** `argv[i][0] == '-'`; an empty token has its terminating NUL there, so it is not a flag. */
  predicate IsFlag(token: string)
  {
    |token| > 0 && token[0] == '-'
  }

  /** The table and the `prevArgument` local of Init after some prefix of argv. */
  datatype ScanState = ScanState(table: map<string, string>, prev: Option<string>)

  /** One iteration of the loop of Init (lines 14-20). */
  function Step(st: ScanState, token: string): ScanState
  {
    if IsFlag(token) then ScanState(st.table[token := ""], Some(token))
    else if st.prev.Some? then ScanState(st.table[st.prev.value := token], st.prev)
    else st
  }

  /** The state after scanning `tokens` from left to right, starting from `table`. */
  function Scan(table: map<string, string>, tokens: seq<string>): ScanState
  {
    if |tokens| == 0 then ScanState(table, None)
    else Step(Scan(table, tokens[..|tokens| - 1]), tokens[|tokens| - 1])
  }

  // An independent description of the table Init leaves.

  predicate Occurs(tokens: seq<string>, f: string)
  {
    exists i :: 0 <= i < |tokens| && tokens[i] == f
  }

  /** Index of the last occurrence of `f`. */
  function LastIndexOf(tokens: seq<string>, f: string): (k: nat)
    requires Occurs(tokens, f)
    ensures k < |tokens| && tokens[k] == f
    ensures forall j :: k < j < |tokens| ==> tokens[j] != f
  {
    if tokens[|tokens| - 1] == f then |tokens| - 1
    else
      assert Occurs(tokens[..|tokens| - 1], f) by {
        var i :| 0 <= i < |tokens| && tokens[i] == f;
        assert tokens[..|tokens| - 1][i] == f;
      }
      LastIndexOf(tokens[..|tokens| - 1], f)
  }

  /** The first flag at or after `from`, or |tokens| when there is none. */
  function NextFlagFrom(tokens: seq<string>, from: nat): (e: nat)
    requires from <= |tokens|
    ensures from <= e <= |tokens|
    ensures e < |tokens| ==> IsFlag(tokens[e])
    ensures forall j :: from <= j < e ==> !IsFlag(tokens[j])
    decreases |tokens| - from
  {
    if from == |tokens| || IsFlag(tokens[from]) then from else NextFlagFrom(tokens, from + 1)
  }

  /**
   * The value a flag ends with: the last of the non-flag tokens that follow
   * its last occurrence up to the next flag, or "" when there are none.
   */
  function ExpectedValue(tokens: seq<string>, f: string): string
    requires Occurs(tokens, f)
  {
    var k := LastIndexOf(tokens, f);
    var e := NextFlagFrom(tokens, k + 1);
    if e == k + 1 then "" else tokens[e - 1]
  }

  /** The most recent flag of `tokens`. */
  function LastFlag(tokens: seq<string>): Option<string>
  {
    if |tokens| == 0 then None
    else if IsFlag(tokens[|tokens| - 1]) then Some(tokens[|tokens| - 1])
    else LastFlag(tokens[..|tokens| - 1])
  }

  lemma {:induction false} ScanPrev(table: map<string, string>, tokens: seq<string>)
    ensures Scan(table, tokens).prev == LastFlag(tokens)
  {
    if |tokens| > 0 {
      ScanPrev(table, tokens[..|tokens| - 1]);
    }
  }

  /** When the last flag is not f, some flag follows the last occurrence of f. */
  lemma {:induction false} FlagAfterLastOccurrence(tokens: seq<string>, f: string)
    requires IsFlag(f) && Occurs(tokens, f) && LastFlag(tokens) != Some(f)
    ensures NextFlagFrom(tokens, LastIndexOf(tokens, f) + 1) < |tokens|
  {
    var n := |tokens|;
    var k := LastIndexOf(tokens, f);
    if k < n - 1 && !IsFlag(tokens[n - 1]) {
      var t' := tokens[..n - 1];
      assert t'[k] == f;
      assert LastIndexOf(t', f) == k;
      FlagAfterLastOccurrence(t', f);
      NextFlagPrefix(tokens, k + 1);
    }
  }

  /** Dropping a trailing non-flag token does not move a next flag that lies before it. */
  lemma {:induction false} NextFlagPrefix(tokens: seq<string>, from: nat)
    requires 0 < |tokens| && from <= |tokens| - 1
    ensures NextFlagFrom(tokens[..|tokens| - 1], from) < |tokens| - 1 ==>
      NextFlagFrom(tokens, from) == NextFlagFrom(tokens[..|tokens| - 1], from)
    ensures NextFlagFrom(tokens[..|tokens| - 1], from) == |tokens| - 1 ==>
      NextFlagFrom(tokens, from) == (if IsFlag(tokens[|tokens| - 1]) then |tokens| - 1 else |tokens|)
    decreases |tokens| - from
  {
    var t' := tokens[..|tokens| - 1];
    if from < |tokens| - 1 && !IsFlag(tokens[from]) {
      assert t'[from] == tokens[from];
      NextFlagPrefix(tokens, from + 1);
    }
  }

  /** Occurrence in a prefix and in the whole sequence. */
  lemma OccursPrefix(tokens: seq<string>, f: string)
    requires 0 < |tokens|
    ensures Occurs(tokens[..|tokens| - 1], f) ==> Occurs(tokens, f)
    ensures Occurs(tokens, f) && tokens[|tokens| - 1] != f ==> Occurs(tokens[..|tokens| - 1], f)
  {
    var t' := tokens[..|tokens| - 1];
    if Occurs(t', f) {
      var i :| 0 <= i < |t'| && t'[i] == f;
      assert tokens[i] == f;
    }
    if Occurs(tokens, f) && tokens[|tokens| - 1] != f {
      var i :| 0 <= i < |tokens| && tokens[i] == f;
      assert t'[i] == f;
    }
  }

  /** The expected value of f when the last token is neither f nor a value for f. */
  lemma ExpectedValueKept(tokens: seq<string>, f: string)
    requires 0 < |tokens| && IsFlag(f) && tokens[|tokens| - 1] != f
    requires Occurs(tokens[..|tokens| - 1], f)
    requires IsFlag(tokens[|tokens| - 1]) || LastFlag(tokens[..|tokens| - 1]) != Some(f)
    ensures Occurs(tokens, f)
    ensures ExpectedValue(tokens, f) == ExpectedValue(tokens[..|tokens| - 1], f)
  {
    var n := |tokens|;
    var t' := tokens[..n - 1];
    OccursPrefix(tokens, f);
    var k := LastIndexOf(tokens, f);
    assert t'[k] == f;
    assert LastIndexOf(t', f) == k;
    NextFlagPrefix(tokens, k + 1);
    if !IsFlag(tokens[n - 1]) {
      FlagAfterLastOccurrence(t', f);
    }
  }

  /** The expected value of f when the last token is a value and f is the most recent flag. */
  lemma ExpectedValueSet(tokens: seq<string>, f: string)
    requires 0 < |tokens| && IsFlag(f) && !IsFlag(tokens[|tokens| - 1])
    requires LastFlag(tokens[..|tokens| - 1]) == Some(f)
    ensures Occurs(tokens, f)
    ensures ExpectedValue(tokens, f) == tokens[|tokens| - 1]
  {
    var n := |tokens|;
    var t' := tokens[..n - 1];
    LastFlagOccurs(t');
    OccursPrefix(tokens, f);
    var k := LastIndexOf(tokens, f);
    assert t'[k] == f;
    assert LastIndexOf(t', f) == k;
    NextFlagPrefix(tokens, k + 1);
    if NextFlagFrom(t', k + 1) < n - 1 {
      LastFlagAfter(t', NextFlagFrom(t', k + 1), f, k);
    }
  }

  /** Init's table agrees with the independent description, flag by flag. */
  lemma {:induction false} ScanTable(table: map<string, string>, tokens: seq<string>, f: string)
    requires IsFlag(f)
    ensures Occurs(tokens, f) ==> f in Scan(table, tokens).table && Scan(table, tokens).table[f] == ExpectedValue(tokens, f)
    ensures !Occurs(tokens, f) ==>
      (f in Scan(table, tokens).table <==> f in table) && (f in table ==> Scan(table, tokens).table[f] == table[f])
  {
    var n := |tokens|;
    if n > 0 {
      var t' := tokens[..n - 1];
      var x := tokens[n - 1];
      ScanTable(table, t', f);
      ScanPrev(table, t');
      OccursPrefix(tokens, f);
      var before := Scan(table, t');
      if x == f {
        assert Occurs(tokens, f);
      } else if !IsFlag(x) && before.prev == Some(f) {
        ExpectedValueSet(tokens, f);
      } else if Occurs(t', f) {
        ExpectedValueKept(tokens, f);
      } else if !IsFlag(x) && before.prev.Some? {
        LastFlagOccurs(t');
      }
    }
  }

  /** The most recent flag occurs in the tokens. */
  lemma {:induction false} LastFlagOccurs(tokens: seq<string>)
    ensures LastFlag(tokens).Some? ==> Occurs(tokens, LastFlag(tokens).value)
  {
    if |tokens| > 0 && !IsFlag(tokens[|tokens| - 1]) {
      var t' := tokens[..|tokens| - 1];
      LastFlagOccurs(t');
      if LastFlag(t').Some? {
        var i :| 0 <= i < |t'| && t'[i] == LastFlag(t').value;
        assert tokens[i] == t'[i];
      }
    }
  }

  /** A flag at index e after the last occurrence k of f means the most recent flag is not f. */
  lemma {:induction false} LastFlagAfter(tokens: seq<string>, e: nat, f: string, k: nat)
    requires k < e < |tokens| && IsFlag(tokens[e]) && tokens[e] != f
    requires forall j :: k < j < |tokens| ==> tokens[j] != f
    ensures LastFlag(tokens) != Some(f)
  {
    var n := |tokens|;
    if e < n - 1 && !IsFlag(tokens[n - 1]) {
      var t' := tokens[..n - 1];
      LastFlagAfter(t', e, f, k);
    } else if e < n - 1 {
      assert tokens[n - 1] != f;
    }
  }

  /** Non-flag tokens before the first flag are ignored. */
  lemma {:induction false} LeadingValuesIgnored(table: map<string, string>, tokens: seq<string>)
    requires forall i :: 0 <= i < |tokens| ==> !IsFlag(tokens[i])
    ensures Scan(table, tokens) == ScanState(table, None)
  {
    if |tokens| > 0 {
      LeadingValuesIgnored(table, tokens[..|tokens| - 1]);
    }
  }

  /** Every token that starts with '-' ends up registered. */
  lemma EveryFlagRegistered(table: map<string, string>, tokens: seq<string>, i: nat)
    requires i < |tokens| && IsFlag(tokens[i])
    ensures tokens[i] in Scan(table, tokens).table
  {
    assert Occurs(tokens, tokens[i]);
    ScanTable(table, tokens, tokens[i]);
  }

  /** The argument table `s_Arguments`. */
  class ArgumentTable {
    var arguments: map<string, string>

    constructor ()
      ensures arguments == map[]
    {
      arguments := map[];
    }

    /** Arguments::Init (lines 9-22). */
    method Init(argv: seq<string>)
      modifies this
      ensures arguments == Scan(old(arguments), argv).table
    {
      var prevArgument: Option<string> := None;
      var i := 0;
      while i < |argv|
        invariant 0 <= i <= |argv|
        invariant ScanState(arguments, prevArgument) == Scan(old(arguments), argv[..i])
      {
        assert argv[..i + 1][..i] == argv[..i];
        if |argv[i]| > 0 && argv[i][0] == '-' {
          arguments := arguments[argv[i] := ""];
          prevArgument := Some(argv[i]);
        } else if prevArgument.Some? {
          arguments := arguments[prevArgument.value := argv[i]];
        }
        i := i + 1;
      }
      assert argv[..|argv|] == argv;
    }

    /** Arguments::Contains (lines 24-27). */
    function Contains(argument: string): (r: bool)
      reads this
      ensures r <==> argument in arguments
    {
      argument in arguments
    }

    /** Arguments::Get (lines 29-32): "" for an absent flag. */
    function Get(argument: string): (r: string)
      reads this
      ensures argument !in arguments ==> r == ""
      ensures argument in arguments ==> r == arguments[argument]
    {
      if argument in arguments then arguments[argument] else ""
    }
  }

  /** After Init on a fresh table, Get and Contains answer by the independent description. */
  lemma GetAfterInit(argv: seq<string>, f: string)
    requires IsFlag(f)
    ensures var t := Scan(map[], argv).table;
      (f in t <==> Occurs(argv, f))
      && (Occurs(argv, f) ==> t[f] == ExpectedValue(argv, f))
  {
    ScanTable(map[], argv, f);
  }
}
