/**
  File names of the billboard captures.

  Every capture writes one PNG per camera slot that holds a camera, named
  `BillBoardCapture/<object>-<state>-pat-<camera>-<sample>.png`, where camera
  and sample indices are formatted with the .NET format "{0:D2}": decimal,
  zero-padded to at least two digits.
 */
module CapturePaths {

  /** Directory the captures are written to (relative to the project). */
  const ResultDir: string := "BillBoardCapture"

  predicate IsDigit(c: char) {
    '0' <= c <= '9'
  }

  /** A non-empty run of decimal digits. */
  predicate IsDecimal(s: string) {
    |s| > 0 && forall i :: 0 <= i < |s| ==> IsDigit(s[i])
  }

  /** The number a string of decimal digits denotes (reads the last digit last). */
  function DecimalValue(s: string): nat
  {
    if s == [] then 0
    else DecimalValue(s[..|s| - 1]) * 10 + (if IsDigit(s[|s| - 1]) then (s[|s| - 1] - '0') as nat else 0)
  }

  function DigitChar(d: nat): (c: char)
    requires d < 10
    ensures IsDigit(c) && (c - '0') as nat == d
  {
    '0' + d as char
  }

  /** Shortest decimal rendering of `n`, the "D" format without padding. */
  function Digits(n: nat): string
  {
    if n < 10 then [DigitChar(n)]
    else Digits(n / 10) + [DigitChar(n % 10)]
  }

  /** `Digits` renders `n` as a plain run of digits, one digit exactly for n < 10, with no leading zero, that reads back as `n`. */
  lemma {:induction false} DigitsSpec(n: nat)
    ensures IsDecimal(Digits(n))
    ensures |Digits(n)| == 1 <==> n < 10
    ensures Digits(n)[0] == '0' ==> n == 0
    ensures DecimalValue(Digits(n)) == n
  {
    if n >= 10 {
      DigitsSpec(n / 10);
      var s := Digits(n);
      assert s[..|s| - 1] == Digits(n / 10);
    }
  }

  /** The "{0:D2}" format of a non-negative index: at least two digits, zero-padded. */
  function D2(n: nat): string
  {
    if n < 10 then ['0'] + Digits(n) else Digits(n)
  }

  /**
    "{0:D2}" pads to two digits and no further: two digits below 100, no
    leading zero beyond that, and the digits read back as `n`.
   */
  lemma D2Spec(n: nat)
    ensures IsDecimal(D2(n))
    ensures |D2(n)| >= 2
    ensures n < 100 ==> |D2(n)| == 2
    ensures |D2(n)| > 2 ==> D2(n)[0] != '0'
    ensures DecimalValue(D2(n)) == n
  {
    DigitsSpec(n);
    if n < 10 {
      var s := D2(n);
      assert s[..1] == ['0'];
    } else if n < 100 {
      DigitsSpec(n / 10);
    }
  }

  /** Distinct indices never format to the same text. */
  lemma D2Injective(m: nat, n: nat)
    requires D2(m) == D2(n)
    ensures m == n
  {
    D2Spec(m);
    D2Spec(n);
  }

  /** The file a camera slot's render of one sample is saved to. */
  function CapturePath(objName: string, stateName: string, camera: nat, sample: nat): string
  {
    Stem(objName, stateName) + "-" + D2(camera) + "-" + D2(sample) + ".png"
  }

  /** The part of a capture's path before the camera index and its leading dash. */
  function Stem(objName: string, stateName: string): string
  {
    ResultDir + "/" + objName + "-" + stateName + "-pat"
  }

  /** Below 100, "{0:D2}" is the tens digit followed by the units digit. */
  lemma D2Small(n: nat)
    requires n < 100
    ensures D2(n) == [DigitChar(n / 10), DigitChar(n % 10)]
  {
    if n >= 10 {
      assert Digits(n / 10) == [DigitChar(n / 10)];
    }
  }

  /**
    For indices below 100 a capture's file is
    `BillBoardCapture/<object>-<state>-pat-CC-SS.png` with exactly two digits
    for camera CC and sample SS.
   */
  lemma CapturePathTwoDigits(objName: string, stateName: string, camera: nat, sample: nat)
    requires camera < 100 && sample < 100
    ensures CapturePath(objName, stateName, camera, sample)
         == "BillBoardCapture/" + objName + "-" + stateName + "-pat-"
            + [DigitChar(camera / 10), DigitChar(camera % 10)] + "-"
            + [DigitChar(sample / 10), DigitChar(sample % 10)] + ".png"
  {
    D2Small(camera);
    D2Small(sample);
  }

  /**
    A string `x + "-" + b` whose tail `b` is all digits splits at its last
    dash in exactly one way.
   */
  lemma {:induction false} SplitAtLastDash(x1: string, b1: string, x2: string, b2: string)
    requires IsDecimal(b1) && IsDecimal(b2)
    requires x1 + "-" + b1 == x2 + "-" + b2
    ensures x1 == x2 && b1 == b2
  {
    var s := x1 + "-" + b1;
    DashThenDigits(x1, b1);
    DashThenDigits(x2, b2);
    if |b1| != |b2| {
      assert false;
    }
    assert x1 == s[..|x1|] == x2;
    assert b1 == s[|x1| + 1..] == b2;
  }

  /** Where the dash and the digits of `x + "-" + b` sit. */
  lemma DashThenDigits(x: string, b: string)
    requires IsDecimal(b)
    ensures var s := x + "-" + b;
      && s[|x|] == '-'
      && forall i :: |x| < i < |s| ==> IsDigit(s[i])
  {
  }

  /** Equal strings with equal suffixes have equal prefixes. */
  lemma StripSuffix(a1: string, a2: string, suffix: string)
    requires a1 + suffix == a2 + suffix
    ensures a1 == a2
  {
    assert a1 == (a1 + suffix)[..|a1|];
  }

  /**
    For one object and one animation state, different (camera, sample) pairs
    are saved to different files: no capture of a state overwrites another.
   */
  lemma {:induction false} CapturePathInjective(objName: string, stateName: string, c1: nat, s1: nat, c2: nat, s2: nat)
    requires CapturePath(objName, stateName, c1, s1) == CapturePath(objName, stateName, c2, s2)
    ensures c1 == c2 && s1 == s2
  {
    var head := Stem(objName, stateName);
    D2Spec(c1);
    D2Spec(s1);
    D2Spec(c2);
    D2Spec(s2);
    StripSuffix(head + "-" + D2(c1) + "-" + D2(s1), head + "-" + D2(c2) + "-" + D2(s2), ".png");
    SplitAtLastDash(head + "-" + D2(c1), D2(s1), head + "-" + D2(c2), D2(s2));
    SplitAtLastDash(head, D2(c1), head, D2(c2));
    D2Injective(c1, c2);
    D2Injective(s1, s2);
  }

  /**
    The files one capture writes when slot `c` of `present` tells whether a
    camera is there: slots `0 .. k-1` in order, empty slots skipped.
   */
  function SlotPaths(objName: string, stateName: string, present: seq<bool>, sample: nat, k: nat): seq<string>
    requires k <= |present|
  {
    if k == 0 then []
    else
      SlotPaths(objName, stateName, present, sample, k - 1)
      + (if present[k - 1] then [CapturePath(objName, stateName, k - 1, sample)] else [])
  }

  /** A capture writes no more files than it looks at slots, and only files of occupied slots. */
  lemma {:induction false} SlotPathsMembers(objName: string, stateName: string, present: seq<bool>, sample: nat, k: nat)
    requires k <= |present|
    ensures |SlotPaths(objName, stateName, present, sample, k)| <= k
    ensures forall p :: p in SlotPaths(objName, stateName, present, sample, k) ==>
      exists c: nat :: c < k && present[c] && p == CapturePath(objName, stateName, c, sample)
  {
    if k > 0 {
      SlotPathsMembers(objName, stateName, present, sample, k - 1);
      forall c: nat | c < k - 1 && CapturePath(objName, stateName, k - 1, sample) == CapturePath(objName, stateName, c, sample)
        ensures false
      {
        CapturePathInjective(objName, stateName, k - 1, sample, c, sample);
      }
    }
  }

  /** The file of camera `c` is among those a capture writes exactly when slot `c` holds a camera. */
  lemma {:induction false} SlotPathsHasCamera(objName: string, stateName: string, present: seq<bool>, sample: nat, k: nat, c: nat)
    requires c < k <= |present|
    ensures CapturePath(objName, stateName, c, sample) in SlotPaths(objName, stateName, present, sample, k) <==> present[c]
  {
    var path := CapturePath(objName, stateName, c, sample);
    var prev := SlotPaths(objName, stateName, present, sample, k - 1);
    var tail := if present[k - 1] then [CapturePath(objName, stateName, k - 1, sample)] else [];
    assert SlotPaths(objName, stateName, present, sample, k) == prev + tail;
    if c == k - 1 {
      SlotPathsMembers(objName, stateName, present, sample, k - 1);
      if path in prev {
        var c': nat :| c' < k - 1 && present[c'] && path == CapturePath(objName, stateName, c', sample);
        CapturePathInjective(objName, stateName, c, sample, c', sample);
      }
    } else {
      SlotPathsHasCamera(objName, stateName, present, sample, k - 1, c);
      if path in tail {
        CapturePathInjective(objName, stateName, c, sample, k - 1, sample);
      }
    }
  }

  /** A capture never writes the same file twice. */
  lemma {:induction false} SlotPathsDistinct(objName: string, stateName: string, present: seq<bool>, sample: nat, k: nat)
    requires k <= |present|
    ensures forall i, j :: 0 <= i < j < |SlotPaths(objName, stateName, present, sample, k)| ==>
      SlotPaths(objName, stateName, present, sample, k)[i] != SlotPaths(objName, stateName, present, sample, k)[j]
  {
    if k > 0 {
      SlotPathsDistinct(objName, stateName, present, sample, k - 1);
      SlotPathsMembers(objName, stateName, present, sample, k - 1);
      var prev := SlotPaths(objName, stateName, present, sample, k - 1);
      var last := CapturePath(objName, stateName, k - 1, sample);
      var ps := SlotPaths(objName, stateName, present, sample, k);
      forall i, j | 0 <= i < j < |ps|
        ensures ps[i] != ps[j]
      {
        if j >= |prev| {
          assert ps[i] == prev[i] && ps[j] == last;
          assert prev[i] in prev;
          var c: nat :| c < k - 1 && present[c] && prev[i] == CapturePath(objName, stateName, c, sample);
          if prev[i] == last {
            CapturePathInjective(objName, stateName, k - 1, sample, c, sample);
          }
        }
      }
    }
  }

  /** With every slot filled, one capture writes exactly the files of cameras 0 .. k-1, in order. */
  lemma {:induction false} FullSlotPaths(objName: string, stateName: string, present: seq<bool>, sample: nat, k: nat)
    requires k <= |present|
    requires forall c :: 0 <= c < |present| ==> present[c]
    ensures |SlotPaths(objName, stateName, present, sample, k)| == k
    ensures forall c :: 0 <= c < k ==> SlotPaths(objName, stateName, present, sample, k)[c] == CapturePath(objName, stateName, c, sample)
  {
    if k > 0 {
      FullSlotPaths(objName, stateName, present, sample, k - 1);
      var prev := SlotPaths(objName, stateName, present, sample, k - 1);
      var ps := SlotPaths(objName, stateName, present, sample, k);
      assert ps == prev + [CapturePath(objName, stateName, k - 1, sample)];
      forall c | 0 <= c < k
        ensures ps[c] == CapturePath(objName, stateName, c, sample)
      {
        if c < k - 1 {
          assert ps[c] == prev[c];
        }
      }
    }
  }
}
