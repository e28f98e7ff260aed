/**
 * The key/value settings table (models.py, SystemConfig). Values are stored
 * as text; `get_config` reads a stored text back as a boolean, an integer, a
 * decimal or, failing all three, the text itself.
 */
module Config {
  import opened Wrappers
  import opened Participants
  import opened Text

  /**
   * A value `get_config` hands back. A float is kept exactly as the decimal
   * it was written as: `FloatVal(m, k)` stands for m / 10^k.
   */
  datatype ConfigValue = BoolVal(b: bool) | IntVal(i: int) | FloatVal(mantissa: nat, scale: nat) | StrVal(s: string)

  /** A row of the table: the stored text and its optional description. */
  datatype ConfigRow = ConfigRow(value: string, description: Option<string>)

  /** Number of '.' characters in `s`. */
  function Dots(s: string): (r: nat)
    ensures r <= |s|
    ensures r == 0 <==> '.' !in s
  {
    if |s| == 0 then 0 else Dots(s[..|s| - 1]) + (if s[|s| - 1] == '.' then 1 else 0)
  }

  /** `s.replace('.', '')`. */
  function Undotted(s: string): (r: string)
    ensures |r| + Dots(s) == |s|
    ensures '.' !in r
  {
    if |s| == 0 then "" else Undotted(s[..|s| - 1]) + (if s[|s| - 1] == '.' then "" else [s[|s| - 1]])
  }

  /** `str.isdigit()` on ASCII text: at least one character, all of them digits. */
  predicate IsDigitText(s: string) {
    |s| > 0 && AllDigits(s)
  }

  /**
   * The conversion `get_config` applies to a stored text, tried in the
   * source's order. Text with two or more dots passes the digit test but
   * makes `float()` raise; the handler returns the text unchanged.
   */
  function Coerce(v: string): (r: ConfigValue)
    ensures r.StrVal? ==> r.s == v
    ensures r.BoolVal? <==> Lower(v) == "true" || Lower(v) == "false"
    ensures r.IntVal? ==> r.i >= 0 && IsDigitText(v)
    ensures r.BoolVal? ==> r.b == (Lower(v) == "true")
    ensures IsDigitText(v) ==> r == IntVal(DigitsValue(v))
    ensures r.FloatVal? ==> Dots(v) == 1 && IsDigitText(Undotted(v))
    ensures r.FloatVal? ==> r.mantissa == DigitsValue(Undotted(v)) && r.scale == |v| - 1 - LastDot(v)
  {
    DigitsNotBool(v);
    var low := Lower(v);
    if low == "true" || low == "false" then BoolVal(low == "true")
    else if IsDigitText(v) then IntVal(DigitsValue(v))
    else if '.' in v && IsDigitText(Undotted(v)) then
      if Dots(v) == 1 then FloatVal(DigitsValue(Undotted(v)), |v| - 1 - LastDot(v)) else StrVal(v)
    else StrVal(v)
  }

  /** `str(b)` for a Python bool. */
  function BoolText(b: bool): string {
    if b then "True" else "False"
  }

  /** A stored boolean reads back as that boolean. */
  lemma BoolRoundTrip(b: bool)
    ensures Coerce(BoolText(b)) == BoolVal(b)
  {
    if b {
      assert Lower("True") == "true";
    } else {
      assert Lower("False") == "false";
    }
  }

  /** The comparison with "true"/"false" ignores letter case. */
  lemma AnyCaseBool(v: string)
    requires Lower(v) == "true"
    ensures Coerce(v) == BoolVal(true)
  {
  }

  /** A digit string never lower-cases to "true" or "false". */
  lemma DigitsNotBool(v: string)
    ensures IsDigitText(v) ==> Lower(v) != "true" && Lower(v) != "false"
  {
    if IsDigitText(v) {
      assert LowerChar(v[0]) == v[0];
    }
  }

  /** `str(n)` of a non-negative integer reads back as that integer. */
  lemma NatRoundTrip(n: nat)
    ensures Coerce(Str(n)) == IntVal(n)
  {
    DigitsNotBool(NatStr(n));
    NatStrValue(n);
  }

  /**
   * `str(n)` of a negative integer fails every test ("-" is not a digit, and
   * there is no '.'), so it reads back as text rather than as the integer.
   */
  lemma NegativeStaysText(n: int)
    requires n < 0
    ensures Coerce(Str(n)) == StrVal(Str(n))
  {
    var t := Str(n);
    assert t[0] == '-';
    assert Lower(t)[0] == '-';
    assert "true"[0] == 't' && "false"[0] == 'f';
    assert !IsDigit(t[0]);
    assert '.' !in t by {
      forall i | 0 <= i < |t| ensures t[i] != '.' {
        if i > 0 {
          assert t[i] == NatStr(-n)[i - 1];
        }
      }
    }
  }

  lemma {:induction false} DotsConcat(a: string, b: string)
    ensures Dots(a + b) == Dots(a) + Dots(b)
    ensures Undotted(a + b) == Undotted(a) + Undotted(b)
    decreases |b|
  {
    if |b| == 0 {
      assert a + b == a;
    } else {
      var b' := b[..|b| - 1];
      assert a + b == (a + b') + [b[|b| - 1]];
      assert (a + b)[..|a + b| - 1] == a + b';
      DotsConcat(a, b');
    }
  }

  lemma {:induction false} NoDots(s: string)
    requires '.' !in s
    ensures Undotted(s) == s
  {
    if |s| > 0 {
      assert s == s[..|s| - 1] + [s[|s| - 1]];
      NoDots(s[..|s| - 1]);
    }
  }

  lemma DigitsNoDot(s: string)
    requires AllDigits(s)
    ensures '.' !in s
  {
    forall i | 0 <= i < |s| ensures s[i] != '.' {
      assert IsDigit(s[i]);
    }
  }

  /** Text with a dot somewhere is neither a boolean word nor a digit string. */
  lemma DotSeen(v: string, i: int)
    requires 0 <= i < |v| && v[i] == '.'
    ensures Lower(v) != "true" && Lower(v) != "false"
    ensures !IsDigitText(v) && '.' in v
  {
    assert Lower(v)[i] == '.';
    assert '.' !in "true" && '.' !in "false";
    assert !IsDigit(v[i]);
  }

  /** Dots and dot removal across `w + "." + f` when neither side holds a dot. */
  lemma DottedPair(w: string, f: string)
    requires '.' !in w && '.' !in f
    ensures Undotted(w + "." + f) == w + f && Dots(w + "." + f) == 1
  {
    var d := ".";
    NoDots(w);
    NoDots(f);
    assert Undotted(d) == "" && Dots(d) == 1;
    DotsConcat(w, d);
    assert Undotted(w + d) == w;
    DotsConcat(w + d, f);
  }

  lemma DecimalShape(w: string, f: string)
    requires AllDigits(w) && AllDigits(f)
    ensures Undotted(w + "." + f) == w + f && Dots(w + "." + f) == 1
    ensures LastDot(w + "." + f) == |w|
  {
    var v := w + "." + f;
    DigitsNoDot(w);
    DigitsNoDot(f);
    DottedPair(w, f);
    assert v[|w| + 1..] == f;
    LastDotAt(v, |w|);
  }

  lemma DigitsConcat(a: string, b: string)
    requires AllDigits(a) && AllDigits(b)
    ensures AllDigits(a + b)
  {
    forall i | 0 <= i < |a + b| ensures IsDigit((a + b)[i]) {
      if i < |a| {
        assert (a + b)[i] == a[i];
      } else {
        assert (a + b)[i] == b[i - |a|];
      }
    }
  }

  /**
   * A decimal `w.f` with digits on at least one side of its single dot reads
   * back as the float w.f: all its digits as mantissa, |f| decimal places.
   */
  lemma DecimalRoundTrip(w: string, f: string)
    requires AllDigits(w) && AllDigits(f) && |w| + |f| > 0
    ensures Coerce(w + "." + f) == FloatVal(DigitsValue(w + f), |f|)
  {
    var v := w + "." + f;
    DotSeen(v, |w|);
    DecimalShape(w, f);
    DigitsConcat(w, f);
    assert IsDigitText(Undotted(v));
    assert |v| - 1 - LastDot(v) == |f|;
  }

  lemma TwoDotsShape(a: string, b: string, c: string)
    requires AllDigits(a) && AllDigits(b) && AllDigits(c)
    ensures Undotted(a + "." + b + "." + c) == a + b + c && Dots(a + "." + b + "." + c) == 2
  {
    DigitsNoDot(a);
    DigitsNoDot(b);
    DigitsNoDot(c);
    DottedPair(a, b);
    var d := ".";
    var ab := a + d + b;
    assert Undotted(d) == "" && Dots(d) == 1;
    DotsConcat(ab, d);
    assert Undotted(ab + d) == a + b;
    NoDots(c);
    DotsConcat(ab + d, c);
    assert Undotted(ab + d + c) == a + b + c;
  }

  /**
   * Digit runs joined by two dots stay text: with some digit they pass the
   * test after `replace('.', '')` but make `float()` raise, and the handler
   * returns the text unchanged; ".." alone fails the digit test.
   */
  lemma TwoDotsStayText(a: string, b: string, c: string)
    requires AllDigits(a) && AllDigits(b) && AllDigits(c)
    ensures Coerce(a + "." + b + "." + c) == StrVal(a + "." + b + "." + c)
  {
    var v := a + "." + b + "." + c;
    DotSeen(v, |a|);
    TwoDotsShape(a, b, c);
  }

  /** The settings table; each key appears once, as the column's uniqueness constraint demands. */
  class ConfigStore {
    var rows: map<string, ConfigRow>

    constructor ()
      ensures rows == map[]
    {
      rows := map[];
    }

    /** `SystemConfig.get_config(key, default)`. */
    function GetConfig(key: string, default: Option<ConfigValue>): (r: Option<ConfigValue>)
      reads this
      ensures key !in rows ==> r == default
      ensures key in rows ==> r == Some(Coerce(rows[key].value))
      ensures key in rows ==> r.Some? && (r.value.StrVal? ==> r.value.s == rows[key].value)
    {
      if key in rows then Some(Coerce(rows[key].value)) else default
    }

    /**
     * `SystemConfig.set_config(key, value, description)` with `value` already
     * rendered by `str()`. An existing row takes the new value and takes the
     * description only when it is a non-empty string; a new key gets a row.
     */
    method SetConfig(key: string, value: string, description: Option<string>)
      modifies this
      ensures key in old(rows) ==> rows == old(rows)[key := ConfigRow(value,
        if description.Some? && description.value != "" then description else old(rows)[key].description)]
      ensures key !in old(rows) ==> rows == old(rows)[key := ConfigRow(value, description)]
      ensures GetConfig(key, None) == Some(Coerce(value))
      ensures forall k :: k != key ==> GetConfig(k, None) == old(GetConfig(k, None))
    {
      if key in rows {
        var row := rows[key];
        var d := if description.Some? && description.value != "" then description else row.description;
        rows := rows[key := ConfigRow(value, d)];
      } else {
        rows := rows[key := ConfigRow(value, description)];
      }
    }
  }
}
