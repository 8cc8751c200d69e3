/** Secret name versioning: `utils/strings.go`. */
module SecretName {
  import opened GoStrings
  import opened Decimal

  datatype Result = Ok(name: string) | ParseError

  predicate IsStrHasVxSuffix(str: string) {
    var parts := Split(str, '-');
    var lastPart := parts[|parts| - 1];
    HasPrefix(lastPart, "v") && Atoi(lastPart[1..]).Some?
  }

  function AddVxSuffixToStr(str: string): string {
    str + "-v1"
  }

  /** How a name reads: its leading parts and its version, 0 when it carries no version suffix. */
  datatype View = View(stem: seq<string>, version: int)

  ghost function ViewOf(name: string): (v: View)
    ensures IsInt64(v.version)
  {
    var parts := Split(name, '-');
    if IsStrHasVxSuffix(name)
    then View(parts[..|parts| - 1], Atoi(parts[|parts| - 1][1..]).value)
    else View(parts, 0)
  }

  function Render(stem: seq<string>, version: int): string {
    Join(stem + ["v" + Itoa(version)], '-')
  }

  /** The next name of a secret: the same leading parts under the next int64 version. */
  ghost function Next(name: string): string {
    var v := ViewOf(name);
    Render(v.stem, Succ64(v.version))
  }

  method IncVxSuffixToStr(str: string) returns (r: Result)
    ensures var parts := Split(str, '-');
            match Atoi(TrimPrefix(parts[|parts| - 1], "v"))
            case None => r == ParseError
            case Some(n) => r == Ok(Render(parts[..|parts| - 1], Succ64(n)))
  {
    hide Split, Join, Itoa, Atoi, Succ64;
    var strParts := Split(str, '-');
    var strPartsV := TrimPrefix(strParts[|strParts| - 1], "v");
    var parsed := Atoi(strPartsV);
    if parsed.None? {
      return ParseError;
    }
    ghost var was := strParts;
    strParts := strParts[|strParts| - 1 := "v" + Itoa(Succ64(parsed.value))];
    assert strParts == was[..|was| - 1] + ["v" + Itoa(Succ64(parsed.value))];
    return Ok(Join(strParts, '-'));
  }

  /** Never an error, and both branches compute the same thing: the next version of the name. */
  method ChangeSecretName(secretName: string) returns (r: Result)
    ensures r == Ok(Next(secretName))
  {
    hide Split, Join, Itoa, Atoi, Succ64, Render;
    if !IsStrHasVxSuffix(secretName) {
      assert Next(secretName) == Render(Split(secretName, '-'), 1);
      AddedSuffix(secretName);
      return Ok(AddVxSuffixToStr(secretName));
    } else {
      var newSecretName := IncVxSuffixToStr(secretName);
      if newSecretName.ParseError? {
        return ParseError;
      }
      return newSecretName;
    }
  }

  lemma {:induction false} AddedSuffix(name: string)
    ensures AddVxSuffixToStr(name) == Render(Split(name, '-'), 1)
  {
    JoinAppend(Split(name, '-'), "v1", '-');
    JoinSplit(name, '-');
    assert "v" + Itoa(1) == "v1";
  }

  /** Whatever is recognised as a version suffix carries a number that is not negative. */
  lemma {:induction false} VersionNotNegative(name: string)
    ensures ViewOf(name).version >= 0
  {
    if IsStrHasVxSuffix(name) {
      SplitIsFree(name, '-');
      var parts := Split(name, '-');
      var last := parts[|parts| - 1];
      assert '-' !in last;
      assert '-' !in last[1..];
    }
  }

  /** A name has a version suffix exactly if a number follows its last dash and a `v`, or a `v` alone. */
  lemma {:induction false} SuffixExactly(name: string)
    ensures IsStrHasVxSuffix(name) <==>
      exists num :: '-' !in num && Atoi(num).Some? && (name == "v" + num || exists front :: name == front + "-v" + num)
  {
    hide Atoi, Split, Join;
    var parts := Split(name, '-');
    var last := parts[|parts| - 1];
    SplitIsFree(name, '-');
    if IsStrHasVxSuffix(name) {
      var num := last[1..];
      assert last == "v" + num && '-' !in num;
      LastPart(parts, num);
      JoinSplit(name, '-');
    }
    if num :| '-' !in num && Atoi(num).Some? && (name == "v" + num || exists front :: name == front + "-v" + num) {
      if name == "v" + num {
        SplitAtom(name, '-');
      } else {
        var front :| name == front + "-v" + num;
        SplitIsFree(front, '-');
        JoinAppend(Split(front, '-'), "v" + num, '-');
        JoinSplit(front, '-');
        assert name == front + ['-'] + ("v" + num);
        assert '-' !in "v" + num;
        SplitJoin(Split(front, '-') + ["v" + num], '-');
      }
      assert last == "v" + num;
      assert last[1..] == num;
    }
  }

  lemma {:induction false} LastPart(parts: seq<string>, num: string)
    requires |parts| >= 1 && parts[|parts| - 1] == "v" + num
    ensures Join(parts, '-') == "v" + num || exists front :: Join(parts, '-') == front + "-v" + num
  {
    if |parts| > 1 {
      var front := parts[..|parts| - 1];
      assert parts == front + ["v" + num];
      JoinAppend(front, "v" + num, '-');
      assert Join(front, '-') + ['-'] + ("v" + num) == Join(front, '-') + "-v" + num;
    }
  }

  lemma {:induction false} VersionPartHasNoDash(n: nat)
    ensures '-' !in "v" + Itoa(n)
  {}

  /** A rendered version reads back as itself. */
  lemma {:induction false} ViewRender(stem: seq<string>, n: nat)
    requires Free(stem, '-') && n <= MAX_INT64
    ensures ViewOf(Render(stem, n)) == View(stem, n)
  {
    var parts := stem + ["v" + Itoa(n)];
    VersionPartHasNoDash(n);
    SplitJoin(parts, '-');
    AtoiItoa(n);
    assert ("v" + Itoa(n))[1..] == Itoa(n);
    assert parts[..|parts| - 1] == stem;
  }

  lemma {:induction false} StemIsFree(name: string)
    ensures Free(ViewOf(name).stem, '-')
  {
    SplitIsFree(name, '-');
  }

  /** One rename below the int64 limit: same leading parts, next number. */
  lemma {:induction false} NextView(name: string)
    requires ViewOf(name).version < MAX_INT64
    ensures ViewOf(Next(name)) == View(ViewOf(name).stem, ViewOf(name).version + 1)
  {
    VersionNotNegative(name);
    StemIsFree(name);
    ViewRender(ViewOf(name).stem, ViewOf(name).version + 1);
  }

  /** A negative number splits off two more parts: its sign is a separator. */
  lemma {:induction false} RenderNegative(stem: seq<string>, m: int)
    requires m >= 1
    ensures Render(stem, -m) == Join(stem + ["v", Digits(m)], '-')
  {
    hide Digits, Join;
    var d := Digits(m);
    assert "v" + Itoa(-m) == "v" + ['-'] + d;
    assert stem + ["v", d] == (stem + ["v"]) + [d];
    JoinAppend(stem + ["v"], d, '-');
    JoinLast(stem, "v", d, '-');
  }

  lemma {:induction false} JoinLast(stem: seq<string>, front: string, back: string, sep: char)
    ensures Join(stem + [front + [sep] + back], sep) == Join(stem + [front], sep) + [sep] + back
  {
    if |stem| >= 1 {
      JoinAppend(stem, front, sep);
      JoinAppend(stem, front + [sep] + back, sep);
    } else {
      assert stem == [];
    }
  }

  lemma {:induction false} ViewNegative(stem: seq<string>, m: int)
    requires m >= 1 && Free(stem, '-')
    ensures ViewOf(Render(stem, -m)) == View(stem + ["v", Digits(m)], 0)
  {
    var d := Digits(m);
    var parts := stem + ["v", d];
    RenderNegative(stem, m);
    assert parts[|stem|] == "v" && parts[|stem| + 1] == d;
    assert forall i | 0 <= i < |d| :: IsDigit(d[i]);
    SplitJoin(parts, '-');
    assert IsDigit(d[0]);
  }

  /** The rename of the largest version wraps around, and reads back as an unversioned name. */
  lemma {:induction false} OverflowView(name: string)
    requires ViewOf(name).version == MAX_INT64
    ensures ViewOf(Next(name)) == View(ViewOf(name).stem + ["v", Digits(0 - MIN_INT64)], 0)
  {
    hide ViewOf, Digits, Render, Free;
    assert Succ64(ViewOf(name).version) == MIN_INT64;
    StemIsFree(name);
    ViewNegative(ViewOf(name).stem, 0 - MIN_INT64);
  }

  /** Two names get the same next name exactly when they have the same leading parts and the same version. */
  lemma {:induction false} NextCollidesExactly(a: string, b: string)
    ensures Next(a) == Next(b) <==> ViewOf(a) == ViewOf(b)
  {
    var x, y := ViewOf(a), ViewOf(b);
    VersionNotNegative(a);
    VersionNotNegative(b);
    if Next(a) == Next(b) {
      if x.version < MAX_INT64 { NextView(a); } else { OverflowView(a); }
      if y.version < MAX_INT64 { NextView(b); } else { OverflowView(b); }
      if x.version == MAX_INT64 && y.version == MAX_INT64 {
        var tail := ["v", Digits(0 - MIN_INT64)];
        assert x.stem == (x.stem + tail)[..|x.stem|] && y.stem == (y.stem + tail)[..|y.stem|];
      }
    }
  }

  /** A version is absent, or at least 1 and written without a sign or leading zeros. */
  ghost predicate Canonical(name: string) {
    var v := ViewOf(name);
    IsStrHasVxSuffix(name) ==> v.version >= 1 && name == Render(v.stem, v.version)
  }

  /** Distinct canonical names never meet in one rename. */
  lemma {:induction false} NextInjectiveOnCanonical(a: string, b: string)
    requires Canonical(a) && Canonical(b)
    ensures Next(a) == Next(b) <==> a == b
  {
    NextCollidesExactly(a, b);
    if ViewOf(a) == ViewOf(b) && !IsStrHasVxSuffix(a) {
      assert !IsStrHasVxSuffix(b);
      JoinSplit(a, '-');
      JoinSplit(b, '-');
    }
  }

  /** Outside the canonical names the rename does merge names: a version 0, a sign or a leading zero. */
  lemma {:induction false} NextMergesNonCanonical()
    ensures Next("a") == Next("a-v0") && Next("a-v1") == Next("a-v+1") && Next("a-v1") == Next("a-v01")
  {
    hide ViewOf, Next;
    AtomView("a");
    SuffixView("0", 0);
    SuffixView("1", 1);
    SuffixView("+1", 1);
    SuffixView("01", 1);
    assert "a-v" + "0" == "a-v0" && "a-v" + "1" == "a-v1" && "a-v" + "+1" == "a-v+1" && "a-v" + "01" == "a-v01";
    NextCollidesExactly("a", "a-v0");
    NextCollidesExactly("a-v1", "a-v+1");
    NextCollidesExactly("a-v1", "a-v01");
  }

  lemma {:induction false} AtomView(name: string)
    requires '-' !in name && name != "" && name[0] != 'v'
    ensures ViewOf(name) == View([name], 0)
  {
    SplitAtom(name, '-');
  }

  lemma {:induction false} SuffixView(digits: string, n: nat)
    requires '-' !in digits && Atoi(digits) == Some(n)
    ensures ViewOf("a-v" + digits) == View(["a"], n)
  {
    var parts := ["a", "v" + digits];
    assert "a-v" + digits == "a" + ['-'] + ("v" + digits);
    assert Join(parts, '-') == "a-v" + digits by { assert parts[1..] == ["v" + digits]; }
    assert '-' !in "v" + digits;
    SplitJoin(parts, '-');
    assert ("v" + digits)[1..] == digits;
    assert parts[..1] == ["a"];
  }

  ghost function Renamed(name: string, times: nat): string {
    if times == 0 then name else Next(Renamed(name, times - 1))
  }

  lemma {:induction false} RenamedView(name: string, k: nat)
    requires ViewOf(name).version + k <= MAX_INT64
    ensures ViewOf(Renamed(name, k)) == View(ViewOf(name).stem, ViewOf(name).version + k)
  {
    hide ViewOf, Next;
    if k == 0 {
    } else {
      RenamedView(name, k - 1);
      NextView(Renamed(name, k - 1));
    }
  }

  lemma {:induction false} UnsuffixedRender(name: string, k: nat)
    requires !IsStrHasVxSuffix(name)
    ensures Render(ViewOf(name).stem, k) == name + "-v" + Itoa(k)
  {
    hide Split, Join, Itoa, Atoi;
    JoinAppend(Split(name, '-'), "v" + Itoa(k), '-');
    JoinSplit(name, '-');
    assert name + ['-'] + ("v" + Itoa(k)) == name + "-v" + Itoa(k);
  }

  /** Closed form of `k` renames: the suffix `-v<k>` is added, or the version advances by `k`. */
  lemma {:induction false} ClosedForm(name: string, k: nat)
    requires 1 <= k && ViewOf(name).version + k <= MAX_INT64
    ensures Renamed(name, k) == Render(ViewOf(name).stem, ViewOf(name).version + k)
    ensures !IsStrHasVxSuffix(name) ==> Renamed(name, k) == name + "-v" + Itoa(k)
  {
    hide ViewOf, Render, IsStrHasVxSuffix;
    var v := ViewOf(name);
    VersionNotNegative(name);
    RenamedView(name, k - 1);
    assert Renamed(name, k) == Next(Renamed(name, k - 1)) == Render(v.stem, v.version + k);
    if !IsStrHasVxSuffix(name) {
      UnversionedIsZero(name);
      UnsuffixedRender(name, k);
    }
  }

  lemma {:induction false} UnversionedIsZero(name: string)
    requires !IsStrHasVxSuffix(name)
    ensures ViewOf(name).version == 0
  {}

  /** Names in the order in which renames visit them: more leading parts, then a higher version. */
  ghost predicate Before(a: string, b: string) {
    var x, y := ViewOf(a), ViewOf(b);
    |x.stem| < |y.stem| || (|x.stem| == |y.stem| && x.version < y.version)
  }

  lemma {:induction false} NextIsLater(name: string)
    ensures Before(name, Next(name))
  {
    if ViewOf(name).version < MAX_INT64 { NextView(name); } else { OverflowView(name); }
  }

  lemma {:induction false} NextDiffers(name: string)
    ensures Next(name) != name
  {
    hide ViewOf, Next;
    NextIsLater(name);
  }

  lemma {:induction false} RenamesGoForward(name: string, i: nat, j: nat)
    requires i < j
    ensures Before(Renamed(name, i), Renamed(name, j))
  {
    hide ViewOf, Next;
    if i < j - 1 {
      RenamesGoForward(name, i, j - 1);
    }
    NextIsLater(Renamed(name, j - 1));
  }

  /** No name ever comes back, however often it is renamed; wrapping past the int64 limit included. */
  lemma {:induction false} RenamesNeverRepeat(name: string, i: nat, j: nat)
    ensures Renamed(name, i) == Renamed(name, j) <==> i == j
  {
    if i < j {
      RenamesGoForward(name, i, j);
    } else if j < i {
      RenamesGoForward(name, j, i);
    }
  }
}
