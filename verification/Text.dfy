/** Options and the few facts about strings that several components need. */
module Text {

  datatype Option<+T> = None | Some(value: T)

  function Digit(n: nat): char
    requires n < 10
  {
    ('0' as int + n) as char
  }

  /** The decimal rendering of a counter. */
  function Decimal(n: nat): (s: string)
    ensures s != []
  {
    if n < 10 then [Digit(n)] else Decimal(n / 10) + [Digit(n % 10)]
  }

  lemma {:induction false} DecimalIsDigits(n: nat)
    ensures forall i :: 0 <= i < |Decimal(n)| ==> '0' <= Decimal(n)[i] <= '9'
  {
    if n >= 10 {
      DecimalIsDigits(n / 10);
    }
  }

  lemma DecimalHasNoSlash(n: nat)
    ensures '/' !in Decimal(n)
  {
    DecimalIsDigits(n);
  }

  lemma {:induction false} DecimalInjective(m: nat, n: nat)
    requires Decimal(m) == Decimal(n)
    ensures m == n
  {
    var s, t := Decimal(m), Decimal(n);
    assert m >= 10 <==> |s| > 1;
    assert n >= 10 <==> |t| > 1;
    assert s[|s| - 1] == Digit(m % 10) && t[|t| - 1] == Digit(n % 10);
    if m >= 10 && n >= 10 {
      assert Decimal(m / 10) == s[..|s| - 1] == t[..|t| - 1] == Decimal(n / 10);
      DecimalInjective(m / 10, n / 10);
    } else if m >= 10 || n >= 10 {
      assert false;
    }
  }

  /** The first separator of a string decides the split at its front ... */
  lemma {:induction false} FirstSplit(sep: char, a: string, x: string, b: string, y: string)
    requires sep !in a && sep !in b
    requires a + [sep] + x == b + [sep] + y
    ensures a == b && x == y
  {
    var s, t := a + [sep] + x, b + [sep] + y;
    assert s[|a|] == sep && t[|b|] == sep;
    assert forall i :: 0 <= i < |a| ==> s[i] == a[i];
    assert forall i :: 0 <= i < |b| ==> t[i] == b[i];
    if |a| != |b| {
      assert false;
    } else {
      assert a == s[..|a|] && b == t[..|b|];
      assert x == s[|a| + 1..] && y == t[|b| + 1..];
    }
  }

  /** ... and the last one the split at its back. */
  lemma {:induction false} LastSplit(sep: char, x: string, a: string, y: string, b: string)
    requires sep !in a && sep !in b
    requires x + [sep] + a == y + [sep] + b
    ensures a == b && x == y
  {
    var s, t := x + [sep] + a, y + [sep] + b;
    assert s[|x|] == sep && t[|y|] == sep;
    assert forall i :: |x| < i < |s| ==> s[i] == a[i - |x| - 1];
    assert forall i :: |y| < i < |t| ==> t[i] == b[i - |y| - 1];
    if |x| != |y| {
      assert false;
    } else {
      assert x == s[..|x|] && y == t[..|y|];
      assert a == s[|x| + 1..] && b == t[|y| + 1..];
    }
  }

  // --- Trimming, as str.strip() does it ---

  predicate IsSpace(c: char) {
    var n := c as int;
    || 9 <= n <= 13 || 28 <= n <= 32 || n == 0x85 || n == 0xA0 || n == 0x1680 || 0x2000 <= n <= 0x200A
    || n == 0x2028 || n == 0x2029 || n == 0x202F || n == 0x205F || n == 0x3000
  }

  function StripLeft(s: string): string {
    if s != [] && IsSpace(s[0]) then StripLeft(s[1..]) else s
  }

  function StripRight(s: string): string {
    if s != [] && IsSpace(s[|s| - 1]) then StripRight(s[..|s| - 1]) else s
  }

  function Strip(s: string): string {
    StripRight(StripLeft(s))
  }

  // --- What trimming means ---

  /** The characters Python counts as white space, by code point. */
  const WHITE: set<int> := {
    9, 10, 11, 12, 13, 28, 29, 30, 31, 32, 133, 160, 5760, 8192, 8193, 8194, 8195, 8196, 8197, 8198, 8199, 8200,
    8201, 8202, 8232, 8233, 8239, 8287, 12288}

  predicate White(s: string) {
    forall i :: 0 <= i < |s| ==> s[i] as int in WHITE
  }

  /** `core` neither begins nor ends with white space, and `s` has nothing else around it. */
  ghost predicate Trims(s: string, core: string) {
    && (core != "" ==> core[0] as int !in WHITE && core[|core| - 1] as int !in WHITE)
    && exists i: nat, j: nat :: Around(s, core, i, j)
  }

  ghost predicate Around(s: string, core: string, i: nat, j: nat) {
    i <= j <= |s| && core == s[i..j] && White(s[..i]) && White(s[j..])
  }

  lemma SpaceExactly(c: char)
    ensures IsSpace(c) <==> c as int in WHITE
  {
  }

  lemma {:induction false} StripLeftTrims(s: string) returns (i: nat)
    ensures i <= |s| && StripLeft(s) == s[i..] && White(s[..i])
    ensures i < |s| ==> s[i] as int !in WHITE
  {
    i := 0;
    if s != [] {
      SpaceExactly(s[0]);
      if IsSpace(s[0]) {
        var k := StripLeftTrims(s[1..]);
        i := k + 1;
        assert s[1..][k..] == s[i..] && s[..i] == [s[0]] + s[1..][..k];
      }
    }
  }

  lemma {:induction false} StripRightTrims(s: string) returns (j: nat)
    ensures j <= |s| && StripRight(s) == s[..j] && White(s[j..])
    ensures j > 0 ==> s[j - 1] as int !in WHITE
  {
    j := |s|;
    if s != [] {
      SpaceExactly(s[|s| - 1]);
      if IsSpace(s[|s| - 1]) {
        j := StripRightTrims(s[..|s| - 1]);
        assert s[..|s| - 1][..j] == s[..j] && s[j..] == s[..|s| - 1][j..] + [s[|s| - 1]];
      }
    }
  }

  lemma StripTrims(s: string)
    ensures Trims(s, Strip(s))
  {
    var i := StripLeftTrims(s);
    var j := StripRightTrims(s[i..]);
    assert s[i..][..j] == s[i..i + j] && s[i..][j..] == s[i + j..];
    assert Around(s, Strip(s), i, i + j);
  }

  /** There is one way to trim. */
  lemma TrimsOnce(s: string, core: string, core': string)
    requires Trims(s, core) && Trims(s, core')
    ensures core == core'
  {
    var i: nat, j: nat :| Around(s, core, i, j);
    var k: nat, l: nat :| Around(s, core', k, l);
    if core == "" {
      WhiteThroughout(s, i, k, l);
    } else if core' == "" {
      WhiteThroughout(s, k, i, j);
    } else {
      EndsMeet(s, i, j, k, l);
      EndsMeet(s, k, l, i, j);
    }
  }

  /** Text that is white throughout has an empty core. */
  lemma WhiteThroughout(s: string, i: nat, k: nat, l: nat)
    requires i <= |s| && White(s[..i]) && White(s[i..]) && k <= l <= |s|
    requires k < l ==> s[k] as int !in WHITE
    ensures k == l
  {
    if k < l && k < i {
      WhiteBefore(s, i, k);
    } else if k < l {
      WhiteAfter(s, i, k);
    }
  }

  lemma EndsMeet(s: string, i: nat, j: nat, k: nat, l: nat)
    requires i < j <= |s| && k < l <= |s| && White(s[..i]) && White(s[l..])
    requires s[k] as int !in WHITE && s[j - 1] as int !in WHITE
    ensures i <= k && j <= l
  {
    var last: nat := j - 1;
    if k < i {
      WhiteBefore(s, i, k);
    }
    if l <= last {
      WhiteAfter(s, l, last);
    }
  }

  lemma WhiteBefore(s: string, i: nat, k: nat)
    requires k < i <= |s| && White(s[..i])
    ensures s[k] as int in WHITE
  {
    assert s[..i][k] == s[k];
  }

  lemma WhiteAfter(s: string, i: nat, k: nat)
    requires i <= k < |s| && White(s[i..])
    ensures s[k] as int in WHITE
  {
    assert s[i..][k - i] == s[k];
  }

  lemma StripExactly(s: string, core: string)
    ensures Trims(s, core) <==> core == Strip(s)
  {
    StripTrims(s);
    if Trims(s, core) {
      TrimsOnce(s, core, Strip(s));
    }
  }

  lemma BlankExactly(s: string)
    ensures Strip(s) == "" <==> White(s)
  {
    StripExactly(s, "");
    if White(s) {
      assert s[..|s|] == s && s[|s|..] == "";
      assert Around(s, "", |s|, |s|);
    }
    if Trims(s, "") {
      var i: nat, j: nat :| Around(s, "", i, j);
      assert s == s[..i] + s[i..];
    }
  }
}
