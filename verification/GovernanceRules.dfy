/** Normalization of the user's Agent Rules (src-tauri/src/domain/governance.rs, normalize_rules). */
module GovernanceRules {
  import opened Prelude
  import opened Text

  const MAX_RULES_BYTES: nat := 32 * 1024

  datatype RulesTooLong = RulesTooLong

  /** Each line trimmed; empty lines and lines seen before are dropped. */
  function Kept(lines: seq<string>, seen: set<string>): seq<string> {
    if lines == [] then []
    else
      var line := Trim(lines[0]);
      if line == "" || line in seen then Kept(lines[1..], seen)
      else [line] + Kept(lines[1..], seen + {line})
  }

  function RuleLines(value: string): seq<string> { Kept(Lines(value), {}) }

  function NormalizeRules(value: string): Result<string, RulesTooLong> {
    if Bytes(value) > MAX_RULES_BYTES then Err(RulesTooLong) else Ok(Join(RuleLines(value)))
  }

  /** What survives: each trimmed, non-empty line once, in the order of first appearance. */
  lemma {:induction false} KeptIs(lines: seq<string>, seen: set<string>)
    ensures Distinct(Kept(lines, seen))
    ensures forall x :: x in Kept(lines, seen) <==>
      x != "" && x !in seen && exists i :: 0 <= i < |lines| && Trim(lines[i]) == x
    ensures forall x :: x in Kept(lines, seen) ==> Trimmed(x)
  {
    if lines != [] {
      var line := Trim(lines[0]);
      var i, j := TrimIs(lines[0]);
      var later := if line == "" || line in seen then seen else seen + {line};
      KeptIs(lines[1..], later);
      forall x
        ensures x in Kept(lines, seen) <==> x != "" && x !in seen && exists i :: 0 <= i < |lines| && Trim(lines[i]) == x
      {
        if k :| 0 <= k < |lines[1..]| && Trim(lines[1..][k]) == x { assert lines[k + 1] == lines[1..][k]; }
        if k :| 0 <= k < |lines| && Trim(lines[k]) == x {
          if k > 0 { assert lines[1..][k - 1] == lines[k]; }
        }
      }
    }
  }

  /** Lines that are distinct, trimmed and non-empty are all kept as they are. */
  lemma {:induction false} KeptFixed(lines: seq<string>, seen: set<string>)
    requires Distinct(lines) && forall i :: 0 <= i < |lines| ==>
      lines[i] != "" && Trimmed(lines[i]) && lines[i] !in seen
    ensures Kept(lines, seen) == lines
  {
    if lines != [] {
      assert lines == [lines[0]] + lines[1..];
      KeptFixed(lines[1..], seen + {lines[0]});
    }
  }

  /** The bytes of the lines, counting a line feed after each. */
  function Weight(lines: seq<string>): nat { if lines == [] then 0 else Bytes(lines[0]) + 1 + Weight(lines[1..]) }

  lemma {:induction false} JoinWeight(lines: seq<string>)
    requires lines != []
    ensures Bytes(Join(lines)) + 1 == Weight(lines)
  {
    if |lines| > 1 {
      JoinWeight(lines[1..]);
      BytesConcat(lines[0], "\n");
      BytesConcat(lines[0] + "\n", Join(lines[1..]));
      assert Bytes("\n") == 1;
    } else {
      assert lines[1..] == [];
    }
  }

  lemma {:induction false} KeptWeight(lines: seq<string>, seen: set<string>)
    ensures Weight(Kept(lines, seen)) <= Weight(lines)
  {
    if lines != [] {
      TrimShrinks(lines[0]);
      var line := Trim(lines[0]);
      KeptWeight(lines[1..], if line == "" || line in seen then seen else seen + {line});
    }
  }

  lemma {:induction false} ReturnsWeight(lines: seq<string>)
    requires lines != [] && forall i :: 0 <= i < |lines| ==> '\n' !in lines[i]
    ensures Weight(WithoutReturns(lines)) <= Weight(lines)
    ensures forall i :: 0 <= i < |WithoutReturns(lines)| ==> '\n' !in WithoutReturns(lines)[i]
  {
    if |lines| > 1 {
      ReturnsWeight(lines[1..]);
      if lines[0] != "" {
        var cut := lines[0][..|lines[0]| - 1];
        assert lines[0] == cut + [lines[0][|lines[0]| - 1]];
        BytesConcat(cut, [lines[0][|lines[0]| - 1]]);
      }
    }
  }

  lemma {:induction false} TrimmedHaveNoReturns(lines: seq<string>)
    requires lines != [] && forall i :: 0 <= i < |lines| ==> lines[i] != "" && Trimmed(lines[i])
    ensures WithoutReturns(lines) == lines
  {
    if |lines| > 1 { TrimmedHaveNoReturns(lines[1..]); }
    assert lines == [lines[0]] + lines[1..];
  }

  predicate CleanLine(line: string) { line != "" && Trimmed(line) && '\n' !in line }

  /** Each line of the normalized rules is a trimmed line of the text, without a line feed in it, and occurs once. */
  lemma RuleLinesAre(value: string)
    ensures Distinct(RuleLines(value))
    ensures forall i :: 0 <= i < |RuleLines(value)| ==> CleanLine(RuleLines(value)[i])
  {
    KeptIs(Lines(value), {});
    SplitHasNoLineFeed(value);
    ReturnsWeight(Split(value));
    forall i | 0 <= i < |RuleLines(value)| ensures CleanLine(RuleLines(value)[i]) {
      assert RuleLines(value)[i] in Kept(Lines(value), {});
      var k :| 0 <= k < |Lines(value)| && Trim(Lines(value)[k]) == RuleLines(value)[i];
      TrimShrinks(Lines(value)[k]);
    }
  }

  lemma RuleLinesWeight(value: string)
    ensures Weight(RuleLines(value)) <= Bytes(value) + 1
  {
    SplitHasNoLineFeed(value);
    ReturnsWeight(Split(value));
    KeptWeight(Lines(value), {});
    JoinSplit(value);
    JoinWeight(Split(value));
  }

  /** Normalized rules are never longer than what they came from, and normalizing them again changes nothing. */
  lemma NormalizeTwice(value: string)
    requires NormalizeRules(value).Ok?
    ensures var r := NormalizeRules(value).value; NormalizeRules(r) == Ok(r) && Bytes(r) <= Bytes(value)
  {
    var lines := RuleLines(value);
    RuleLinesAre(value);
    RuleLinesWeight(value);
    if lines == [] {
      assert Join(lines) == "" && Split("") == [""];
    } else {
      JoinWeight(lines);
      SplitJoin(lines);
      TrimmedHaveNoReturns(lines);
      KeptFixed(lines, {});
    }
  }
}
