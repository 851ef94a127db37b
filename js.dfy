/** The few pieces of JavaScript semantics the two components rely on:
    `String.prototype.split("-")`, `Array.prototype.join("-")`,
    `Array.prototype.slice(k)`, string interpolation of a possibly-undefined
    value, and the `Number(...)` coercion applied to stored amounts. */
module Js {
  import opened Wrappers

  /** The separator of every convention-encoded identifier ("floor-room-bed",
      "prefix-id"). */
  const Sep: char := '-'

  // ---------------------------------------------------------------------------
  // split / join
  // ---------------------------------------------------------------------------

  /** `s.split("-")`: the pieces between separators, in order. JavaScript never
      returns an empty array for a string separator: "" splits to [""]. */
  function Split(s: string): (r: seq<string>)
    ensures |r| >= 1
    ensures forall i :: 0 <= i < |r| ==> Sep !in r[i]
    decreases |s|
  {
    if s == [] then [""]
    else
      var rest := Split(s[1..]);
      if s[0] == Sep then [""] + rest
      else [[s[0]] + rest[0]] + rest[1..]
  }

  /** `ts.join("-")`; the empty array joins to "". Joining separator-free
      pieces puts a separator in the result exactly when there are two pieces
      or more, and the first piece always starts the result. */
  function Join(ts: seq<string>): (r: string)
    ensures |ts| >= 1 ==> ts[0] <= r
    ensures (forall i :: 0 <= i < |ts| ==> Sep !in ts[i]) ==> (Sep in r <==> |ts| >= 2)
  {
    if |ts| == 0 then ""
    else if |ts| == 1 then ts[0]
    else ts[0] + [Sep] + Join(ts[1..])
  }

  /** Prefixing a character to the first piece prefixes it to the join. */
  lemma {:induction false} JoinPrefixFirst(c: char, ts: seq<string>)
    requires |ts| >= 1
    ensures Join([[c] + ts[0]] + ts[1..]) == [c] + Join(ts)
  {
    var us := [[c] + ts[0]] + ts[1..];
    assert us[0] == [c] + ts[0] && us[1..] == ts[1..];
    if |ts| > 1 {
      assert Join(us) == ([c] + ts[0]) + [Sep] + Join(ts[1..]);
      assert Join(ts) == ts[0] + [Sep] + Join(ts[1..]);
    }
  }

  /** Joining the pieces of a split gives back the string. */
  lemma {:induction false} JoinSplit(s: string)
    ensures Join(Split(s)) == s
    decreases |s|
  {
    if s != [] {
      var rest := Split(s[1..]);
      JoinSplit(s[1..]);
      if s[0] != Sep {
        assert Split(s) == [[s[0]] + rest[0]] + rest[1..];
        JoinPrefixFirst(s[0], rest);
      } else {
        assert Split(s) == [""] + rest;
        assert ([""] + rest)[1..] == rest;
      }
      assert s == [s[0]] + s[1..];
    }
  }

  /** A string without a separator splits into itself alone. */
  lemma {:induction false} SplitNoSep(t: string)
    requires Sep !in t
    ensures Split(t) == [t]
    decreases |t|
  {
    if t != [] {
      assert Sep !in t[1..] by {
        forall k | 0 <= k < |t[1..]| ensures t[1..][k] != Sep {
          assert t[1..][k] == t[k + 1];
        }
      }
      SplitNoSep(t[1..]);
      assert t == [t[0]] + t[1..];
    }
  }

  /** Splitting `a + "-" + b`, where `a` holds no separator, yields `a` followed
      by the pieces of `b`. */
  lemma {:induction false} SplitAfterPiece(a: string, b: string)
    requires Sep !in a
    ensures Split(a + [Sep] + b) == [a] + Split(b)
    decreases |a|
  {
    if a == [] {
      assert a + [Sep] + b == [Sep] + b;
      assert ([Sep] + b)[1..] == b;
    } else {
      var tail := a[1..];
      assert Sep !in tail by {
        forall k | 0 <= k < |tail| ensures tail[k] != Sep {
          assert tail[k] == a[k + 1];
        }
      }
      SplitAfterPiece(tail, b);
      var s := a + [Sep] + b;
      assert s[0] == a[0] && s[0] != Sep;
      assert s[1..] == tail + [Sep] + b;
      assert [a[0]] + tail == a;
    }
  }

  /** Splitting the join of separator-free pieces gives back the pieces. */
  lemma {:induction false} SplitJoin(ts: seq<string>)
    requires |ts| >= 1
    requires forall i :: 0 <= i < |ts| ==> Sep !in ts[i]
    ensures Split(Join(ts)) == ts
    decreases |ts|
  {
    if |ts| == 1 {
      SplitNoSep(ts[0]);
    } else {
      SplitJoin(ts[1..]);
      SplitAfterPiece(ts[0], Join(ts[1..]));
      assert ts == [ts[0]] + ts[1..];
    }
  }

  /** `s.split("-")[i]`: the i-th piece, or undefined past the end. */
  function Token(s: string, i: nat): (r: Option<string>)
    ensures r.Some? ==> Sep !in r.value
    ensures i == 0 ==> r.Some?
    ensures Sep !in s ==> r == if i == 0 then Some(s) else None
  {
    var ts := Split(s);
    assert Sep !in s ==> ts == [s] by {
      if Sep !in s { SplitNoSep(s); }
    }
    if i < |ts| then Some(ts[i]) else None
  }

  /** The i-th piece of a joined identifier is the i-th part it was built from. */
  lemma TokenOfJoin(ts: seq<string>, i: nat)
    requires |ts| >= 1
    requires forall k :: 0 <= k < |ts| ==> Sep !in ts[k]
    ensures Token(Join(ts), i) == if i < |ts| then Some(ts[i]) else None
  {
    SplitJoin(ts);
  }

  /** `ts.slice(from)` for a non-negative `from`: empty once `from` reaches the
      end. */
  function SliceFrom<T>(ts: seq<T>, from: nat): (r: seq<T>)
    ensures |r| == if from < |ts| then |ts| - from else 0
    ensures forall k :: 0 <= k < |r| ==> r[k] == ts[from + k]
  {
    if from < |ts| then ts[from..] else []
  }

  /** The text a template literal `${v}` produces for a string that may be
      undefined: the string itself, or the text "undefined". A definition of
      the language's own behaviour; its effect on bed keys is stated by
      `Availability.BedKey`. */
  function Interpolate(v: Option<string>): string
  {
    match v
    case Some(s) => s
    case None => "undefined"
  }

  // ---------------------------------------------------------------------------
  // Stored values and Number(...)
  // ---------------------------------------------------------------------------

  /** A field value of a stored document. Numbers are integers here;
      `Obj` stands for any nested object or array. */
  datatype Value = Str(s: string) | Num(n: int) | Bool(b: bool) | Null | Obj

  function DigitValue(c: char): (d: nat)
    requires '0' <= c <= '9'
    ensures d < 10
  {
    (c as int - '0' as int) as nat
  }

  predicate AllDigits(s: string)
  {
    forall k :: 0 <= k < |s| ==> '0' <= s[k] <= '9'
  }

  /** The value of a string of decimal digits, most significant first. */
  function DigitsValue(s: string): nat
    requires AllDigits(s)
  {
    if s == [] then 0
    else DigitsValue(s[..|s| - 1]) * 10 + DigitValue(s[|s| - 1])
  }

  /** `Number(s)` for a string: "" is 0, an optional sign followed by decimal
      digits is that integer, anything else is NaN (None). */
  function ParseNumber(s: string): (r: Option<int>)
    ensures s == "" ==> r == Some(0)
    ensures r.Some? && s != "" ==> AllDigits(s) || ((s[0] == '-' || s[0] == '+') && |s| > 1 && AllDigits(s[1..]))
    ensures s != "" && (AllDigits(s) || ((s[0] == '-' || s[0] == '+') && |s| > 1 && AllDigits(s[1..]))) ==> r.Some?
  {
    if s == [] then Some(0)
    else if (s[0] == '-' || s[0] == '+') && |s| > 1 && AllDigits(s[1..]) then
      (if s[0] == '-' then Some(0 - DigitsValue(s[1..])) else Some(DigitsValue(s[1..])))
    else if AllDigits(s) then Some(DigitsValue(s))
    else None
  }

  /** The decimal digits of a natural number, as `String(n)` writes them. */
  function ShowNat(n: nat): (r: string)
    ensures |r| >= 1 && AllDigits(r)
  {
    var d := ['0' + (n % 10) as char];
    if n < 10 then d else ShowNat(n / 10) + d
  }

  /** `String(n)` for an integer. */
  function Show(n: int): string
  {
    if n < 0 then "-" + ShowNat(-n) else ShowNat(n)
  }

  lemma {:induction false} DigitsOfShowNat(n: nat)
    ensures DigitsValue(ShowNat(n)) == n
  {
    var s := ShowNat(n);
    if n >= 10 {
      DigitsOfShowNat(n / 10);
      assert s[..|s| - 1] == ShowNat(n / 10);
    }
  }

  /** Number(String(n)) == n: parsing the decimal text of an integer gives
      the integer back. */
  lemma ParseShow(n: int)
    ensures ParseNumber(Show(n)) == Some(n)
  {
    if n < 0 {
      DigitsOfShowNat(-n);
      assert Show(n)[1..] == ShowNat(-n);
    } else {
      DigitsOfShowNat(n);
      assert Show(n)[0] != '-' && Show(n)[0] != '+';
    }
  }

  /** A leading zero does not change the value of a digit string. */
  lemma {:induction false} LeadingZeroValue(s: string)
    requires AllDigits(s)
    ensures AllDigits(['0'] + s) && DigitsValue(['0'] + s) == DigitsValue(s)
    decreases |s|
  {
    var z := ['0'] + s;
    assert AllDigits(z) by {
      forall k | 0 <= k < |z| ensures '0' <= z[k] <= '9' {
        if k > 0 { assert z[k] == s[k - 1]; }
      }
    }
    if s != [] {
      var init := s[..|s| - 1];
      assert AllDigits(init) by {
        forall k | 0 <= k < |init| ensures '0' <= init[k] <= '9' { assert init[k] == s[k]; }
      }
      LeadingZeroValue(init);
      assert z[..|z| - 1] == ['0'] + init;
      assert z[|z| - 1] == s[|s| - 1];
    }
  }

  /** Non-canonical decimal text: leading zeros and a `+` sign are read past,
      so "007" and "+7" are both 7, and `-` negates the digits' value. */
  lemma NonCanonicalText(s: string)
    requires s != "" && AllDigits(s)
    ensures ParseNumber(s) == Some(DigitsValue(s))
    ensures ParseNumber(['0'] + s) == ParseNumber(s)
    ensures ParseNumber(['+'] + s) == ParseNumber(s)
    ensures ParseNumber(['-'] + s) == Some(0 - DigitsValue(s))
  {
    LeadingZeroValue(s);
    assert (['+'] + s)[1..] == s;
    assert (['-'] + s)[1..] == s;
  }

  /** `Number(v)` for a field that may be missing (undefined). None is NaN.
      A definition of the language's coercion; what it means for amounts is
      stated by `Residents.Receivable` and `NumberOfText`. */
  function ToNumber(v: Option<Value>): Option<int>
  {
    match v
    case None => None
    case Some(Str(s)) => ParseNumber(s)
    case Some(Num(n)) => Some(n)
    case Some(Bool(b)) => Some(if b then 1 else 0)
    case Some(Null) => Some(0)
    case Some(Obj) => None
  }

  /** Numeric `+`: NaN on either side gives NaN. */
  function Plus(a: Option<int>, b: Option<int>): Option<int>
  {
    if a.Some? && b.Some? then Some(a.value + b.value) else None
  }

  /** Numeric `-`: NaN on either side gives NaN. */
  function Minus(a: Option<int>, b: Option<int>): Option<int>
  {
    if a.Some? && b.Some? then Some(a.value - b.value) else None
  }

  /** An integer stored as its decimal text coerces to the same number as
      the integer stored as a number, so an amount typed into a form counts
      like one written by code. */
  lemma NumberOfText(n: int)
    ensures ToNumber(Some(Str(Show(n)))) == ToNumber(Some(Num(n)))
  {
    ParseShow(n);
  }
}
