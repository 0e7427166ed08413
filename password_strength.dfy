/**
 * `checkPasswordStrength` of `CustomValidations` (js/formularios.js): a score
 * from 0 to 5 and the hints for the criteria the password does not meet, which
 * the source hands to the strength meter.
 */
module PasswordStrength {
  import opened Text

  /** `/[a-z]/.test(password)` */
  predicate HasLower(p: string) {
    exists i :: 0 <= i < |p| && 'a' <= p[i] <= 'z'
  }

  /** `/[A-Z]/.test(password)` */
  predicate HasUpper(p: string) {
    exists i :: 0 <= i < |p| && 'A' <= p[i] <= 'Z'
  }

  /** `/[0-9]/.test(password)` */
  predicate HasNumber(p: string) {
    exists i :: 0 <= i < |p| && IsDigit(p[i])
  }

  predicate IsAlphanumeric(c: char) {
    'a' <= c <= 'z' || 'A' <= c <= 'Z' || IsDigit(c)
  }

  /** `/[^A-Za-z0-9]/.test(password)` */
  predicate HasSymbol(p: string) {
    exists i :: 0 <= i < |p| && !IsAlphanumeric(p[i])
  }

  /** The `checks` object, in its key order: length, lowercase, uppercase, numbers, symbols. */
  function Checks(p: string): (c: seq<bool>)
    ensures |c| == 5
  {
    [|p| >= 8, HasLower(p), HasUpper(p), HasNumber(p), HasSymbol(p)]
  }

  /** The hint pushed for each failed check, in the same order. */
  const Hints: seq<string> :=
    ["Mínimo 8 caracteres", "Letras minúsculas", "Letras maiúsculas", "Números", "Símbolos especiais"]

  /** The number of checks that hold. */
  function CountTrue(c: seq<bool>): (n: nat)
    ensures n <= |c|
  {
    if c == [] then 0 else CountTrue(c[..|c| - 1]) + (if c[|c| - 1] then 1 else 0)
  }

  /** The hints of the checks that fail, in order. */
  function Unmet(c: seq<bool>, hints: seq<string>): seq<string>
    requires |c| == |hints|
  {
    if c == [] then []
    else Unmet(c[..|c| - 1], hints[..|hints| - 1]) + (if c[|c| - 1] then [] else [hints[|hints| - 1]])
  }

  function Bit(b: bool): nat {
    if b then 1 else 0
  }

  function Hint(b: bool, h: string): seq<string> {
    if b then [] else [h]
  }

  /** Five checks, counted one by one. */
  lemma FiveCount(c: seq<bool>)
    requires |c| == 5
    ensures CountTrue(c) == Bit(c[0]) + Bit(c[1]) + Bit(c[2]) + Bit(c[3]) + Bit(c[4])
  {
    assert c[..1][..0] == c[..0];
    assert CountTrue(c[..1]) == Bit(c[0]);
    assert c[..2][..1] == c[..1];
    assert CountTrue(c[..2]) == CountTrue(c[..1]) + Bit(c[1]);
    assert c[..3][..2] == c[..2];
    assert CountTrue(c[..3]) == CountTrue(c[..2]) + Bit(c[2]);
    assert c[..4][..3] == c[..3];
    assert CountTrue(c[..4]) == CountTrue(c[..3]) + Bit(c[3]);
    assert c[..5][..4] == c[..4];
    assert CountTrue(c[..5]) == CountTrue(c[..4]) + Bit(c[4]);
    assert c[..5] == c;
  }

  /** The hints of five checks, listed one by one. */
  lemma FiveUnmet(c: seq<bool>, hints: seq<string>)
    requires |c| == 5 && |hints| == 5
    ensures Unmet(c, hints) ==
      Hint(c[0], hints[0]) + Hint(c[1], hints[1]) + Hint(c[2], hints[2]) + Hint(c[3], hints[3]) + Hint(c[4], hints[4])
  {
    assert c[..1][..0] == c[..0] && hints[..1][..0] == hints[..0];
    assert Unmet(c[..1], hints[..1]) == Hint(c[0], hints[0]);
    assert c[..2][..1] == c[..1] && hints[..2][..1] == hints[..1];
    assert Unmet(c[..2], hints[..2]) == Unmet(c[..1], hints[..1]) + Hint(c[1], hints[1]);
    assert c[..3][..2] == c[..2] && hints[..3][..2] == hints[..2];
    assert Unmet(c[..3], hints[..3]) == Unmet(c[..2], hints[..2]) + Hint(c[2], hints[2]);
    assert c[..4][..3] == c[..3] && hints[..4][..3] == hints[..3];
    assert Unmet(c[..4], hints[..4]) == Unmet(c[..3], hints[..3]) + Hint(c[3], hints[3]);
    assert c[..5][..4] == c[..4] && hints[..5][..4] == hints[..4];
    assert Unmet(c[..5], hints[..5]) == Unmet(c[..4], hints[..4]) + Hint(c[4], hints[4]);
    assert c[..5] == c && hints[..5] == hints;
  }

  /** The score: one per check that holds, one more from 12 and from 16 characters, at most 5. */
  function Score(p: string): (s: nat)
    ensures s <= 5
  {
    var bonus := (if |p| >= 12 then 1 else 0) + (if |p| >= 16 then 1 else 0);
    Min(CountTrue(Checks(p)) + bonus, 5)
  }

  datatype Strength = Strength(strength: nat, messages: seq<string>)

  /**
   * `checkPasswordStrength`, returning what it passes to
   * `updatePasswordStrengthMeter`: nothing is scored for an empty password.
   */
  method CheckPasswordStrength(password: string) returns (r: Strength)
    ensures password == [] ==> r == Strength(0, [])
    ensures password != [] ==> r == Strength(Score(password), Unmet(Checks(password), Hints))
  {
    if password == [] {
      return Strength(0, []);
    }
    var strength := 0;
    var messages: seq<string> := [];
    var checks := Checks(password);
    for i := 0 to |checks|
      invariant strength == CountTrue(checks[..i])
    {
      assert checks[..i + 1][..i] == checks[..i];
      if checks[i] {
        strength := strength + 1;
      }
    }
    assert checks[..|checks|] == checks;
    if |password| >= 12 {
      strength := strength + 1;
    }
    if |password| >= 16 {
      strength := strength + 1;
    }
    strength := Min(strength, 5);
    assert strength == Score(password);
    if !checks[0] {
      messages := messages + [Hints[0]];
    }
    assert messages == Hint(checks[0], Hints[0]);
    if !checks[1] {
      messages := messages + [Hints[1]];
    }
    assert messages == Hint(checks[0], Hints[0]) + Hint(checks[1], Hints[1]);
    if !checks[2] {
      messages := messages + [Hints[2]];
    }
    assert messages == Hint(checks[0], Hints[0]) + Hint(checks[1], Hints[1]) + Hint(checks[2], Hints[2]);
    if !checks[3] {
      messages := messages + [Hints[3]];
    }
    assert messages == Hint(checks[0], Hints[0]) + Hint(checks[1], Hints[1]) + Hint(checks[2], Hints[2]) + Hint(checks[3], Hints[3]);
    if !checks[4] {
      messages := messages + [Hints[4]];
    }
    assert messages == Hint(checks[0], Hints[0]) + Hint(checks[1], Hints[1]) + Hint(checks[2], Hints[2]) + Hint(checks[3], Hints[3]) + Hint(checks[4], Hints[4]);
    FiveUnmet(checks, Hints);
    return Strength(strength, messages);
  }

  /** Every character is a letter, a digit or a symbol, so a non-empty password scores at least 1. */
  lemma NonEmptyScoresAtLeastOne(p: string)
    requires p != []
    ensures 1 <= Score(p) <= 5
  {
    var c := Checks(p);
    FiveCount(c);
    if 'a' <= p[0] <= 'z' {
      assert c[1];
    } else if 'A' <= p[0] <= 'Z' {
      assert c[2];
    } else if IsDigit(p[0]) {
      assert c[3];
    } else {
      assert c[4];
    }
  }

  lemma {:induction false} UnmetCount(c: seq<bool>, hints: seq<string>)
    requires |c| == |hints|
    ensures |Unmet(c, hints)| == |c| - CountTrue(c)
  {
    if c != [] {
      UnmetCount(c[..|c| - 1], hints[..|hints| - 1]);
    }
  }

  lemma {:induction false} UnmetMember(c: seq<bool>, hints: seq<string>, i: nat)
    requires |c| == |hints| && i < |c|
    requires forall j :: 0 <= j < |hints| && j != i ==> hints[j] != hints[i]
    ensures hints[i] in Unmet(c, hints) <==> !c[i]
  {
    var n := |c| - 1;
    var u := Unmet(c[..n], hints[..n]);
    if i < n {
      UnmetMember(c[..n], hints[..n], i);
      assert hints[n] != hints[i];
    } else {
      UnmetAbsent(c[..n], hints[..n], hints[i]);
    }
  }

  lemma {:induction false} UnmetAbsent(c: seq<bool>, hints: seq<string>, h: string)
    requires |c| == |hints| && h !in hints
    ensures h !in Unmet(c, hints)
  {
    if c != [] {
      var n := |c| - 1;
      assert h !in hints[..n] by {
        assert forall j :: 0 <= j < n ==> hints[..n][j] == hints[j];
      }
      UnmetAbsent(c[..n], hints[..n], h);
    }
  }

  /**
   * The meter gets one hint per failed check, and a check's hint is listed
   * exactly when that check fails; with no hint left every check holds.
   */
  lemma MessagesNameFailedChecks(p: string, i: nat)
    requires i < 5
    ensures |Unmet(Checks(p), Hints)| == 5 - CountTrue(Checks(p))
    ensures Hints[i] in Unmet(Checks(p), Hints) <==> !Checks(p)[i]
  {
    UnmetCount(Checks(p), Hints);
    UnmetMember(Checks(p), Hints, i);
  }

  /** A password meeting all five checks scores the maximum, whatever its length. */
  lemma AllChecksScoreFive(p: string)
    requires Unmet(Checks(p), Hints) == []
    ensures Score(p) == 5
  {
    UnmetCount(Checks(p), Hints);
  }

  /** Three lowercase letters meet one check only. */
  lemma WeakScoreExample()
    ensures Score("abc") == 1
  {
    var weak := "abc";
    assert HasLower(weak) by {
      assert 'a' <= weak[0] <= 'z';
    }
    assert !HasUpper(weak) && !HasNumber(weak) && !HasSymbol(weak);
    assert Checks(weak) == [false, true, false, false, false];
    FiveCount(Checks(weak));
  }

  /** A mixed ten-character password meets all five checks. */
  lemma StrongScoreExample()
    ensures Score("Abcdefgh1!") == 5
  {
    var strong := "Abcdefgh1!";
    assert HasLower(strong) by {
      assert 'a' <= strong[1] <= 'z';
    }
    assert HasUpper(strong) by {
      assert 'A' <= strong[0] <= 'Z';
    }
    assert HasNumber(strong) by {
      assert IsDigit(strong[8]);
    }
    assert HasSymbol(strong) by {
      assert !IsAlphanumeric(strong[9]);
    }
    assert Checks(strong) == [true, true, true, true, true];
    FiveCount(Checks(strong));
  }
}
