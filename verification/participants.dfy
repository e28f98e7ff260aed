/**
 * The participant column of a bill: user ids joined with ',' when a bill is
 * created (app.py, add_bill) and split apart again on every read
 * (models.py, Bill.get_participants_list). A piece that Python's `int()`
 * rejects makes the read raise; that path is `None` here.
 */
module Participants {
  import opened Wrappers

  /** The characters Python's `str.isspace()` accepts; `str.strip()` drops them at the ends. */
  predicate IsSpace(c: char) {
    c == ' ' || ('\t' <= c <= '\r') || ('\U{1c}' <= c <= '\U{1f}') || c == '\U{85}' || c == '\U{a0}'
    || c == '\U{1680}' || ('\U{2000}' <= c <= '\U{200a}') || c == '\U{2028}' || c == '\U{2029}'
    || c == '\U{202f}' || c == '\U{205f}' || c == '\U{3000}'
  }

  /**
   * The characters `int()` skips around a number. Non-ASCII whitespace is
   * first rewritten to a space, but of the ASCII characters only the space
   * and '\t'..'\r' are skipped: the separators U+001C..U+001F, which
   * `str.isspace()` accepts, are not.
   */
  predicate IntSpace(c: char) {
    IsSpace(c) && !('\U{1c}' <= c <= '\U{1f}')
  }

  /** `not x.strip()`: the piece holds nothing but whitespace. */
  predicate Blank(x: string) {
    forall i :: 0 <= i < |x| ==> IsSpace(x[i])
  }

  predicate IsDigit(c: char) {
    '0' <= c <= '9'
  }

  predicate AllDigits(s: string) {
    forall i :: 0 <= i < |s| ==> IsDigit(s[i])
  }

  /** The value of a string of decimal digits, most significant first. */
  function DigitsValue(s: string): nat
    requires AllDigits(s)
  {
    if |s| == 0 then 0 else DigitsValue(s[..|s| - 1]) * 10 + (s[|s| - 1] as int - '0' as int)
  }

  /** `s` without the leading whitespace `int()` skips. */
  function TrimStart(s: string): string
  {
    if |s| > 0 && IntSpace(s[0]) then TrimStart(s[1..]) else s
  }

  /** `s` without the trailing whitespace `int()` skips. */
  function TrimEnd(s: string): string
  {
    if |s| > 0 && IntSpace(s[|s| - 1]) then TrimEnd(s[..|s| - 1]) else s
  }

  /**
   * Python's `int(x)` on a string: the surrounding whitespace `int()` skips
   * is dropped, then an optional sign and one or more decimal digits must
   * remain.
   */
  function ParseInt(x: string): Option<int>
  {
    var t := TrimEnd(TrimStart(x));
    if |t| > 1 && (t[0] == '-' || t[0] == '+') && AllDigits(t[1..]) then
      var v: int := DigitsValue(t[1..]);
      Some(if t[0] == '-' then -v else v)
    else if |t| > 0 && AllDigits(t) then Some(DigitsValue(t))
    else None
  }

  /** `s.split(',')`: the pieces between commas, always at least one. */
  function Pieces(s: string): (r: seq<string>)
    ensures |r| > 0
  {
    if |s| == 0 then [""]
    else
      var rest := Pieces(s[1..]);
      if s[0] == ',' then [""] + rest else [[s[0]] + rest[0]] + rest[1..]
  }

  /** Both parses succeed and their lists are concatenated. */
  function Append(x: Option<seq<int>>, y: Option<seq<int>>): (r: Option<seq<int>>)
    ensures r.Some? <==> x.Some? && y.Some?
  {
    if x.Some? && y.Some? then Some(x.value + y.value) else None
  }

  /** One piece of the comprehension: nothing if blank, else `[int(x)]`. */
  function ParsePiece(x: string): Option<seq<int>>
  {
    if Blank(x) then Some([])
    else match ParseInt(x)
      case Some(n) => Some([n])
      case None => None
  }

  /** `[int(x) for x in pieces if x.strip()]`; `None` when some `int(x)` raises. */
  function ParseAll(pieces: seq<string>): Option<seq<int>>
  {
    if |pieces| == 0 then Some([]) else Append(ParsePiece(pieces[0]), ParseAll(pieces[1..]))
  }

  /** Bill.get_participants_list. */
  function Parse(s: string): (r: Option<seq<int>>)
    ensures s == "" ==> r == Some([])
  {
    if |s| > 0 then ParseAll(Pieces(s)) else Some([])
  }

  /** `','.join(xs)`. */
  function Join(xs: seq<string>): string
  {
    if |xs| == 0 then "" else if |xs| == 1 then xs[0] else xs[0] + [','] + Join(xs[1..])
  }

  function NatStr(n: nat): (r: string)
    ensures |r| > 0 && AllDigits(r)
  {
    if n < 10 then [('0' as int + n) as char]
    else NatStr(n / 10) + [('0' as int + n % 10) as char]
  }

  /** `[str(n) for n in ids]`. */
  function Strs(ids: seq<int>): (r: seq<string>)
    ensures |r| == |ids|
  {
    if |ids| == 0 then [] else [Str(ids[0])] + Strs(ids[1..])
  }

  /** `str(n)` for an integer id. */
  function Str(n: int): string
  {
    if n < 0 then "-" + NatStr(-n) else NatStr(n)
  }

  /** app.py's add_bill: the payer's own id is appended to the form's list unless already there. */
  function WithPayer(form: seq<string>, payer: int): (r: seq<string>)
    ensures |form| <= |r| <= |form| + 1 && r[..|form|] == form
    ensures Str(payer) in r
  {
    if Str(payer) in form then form else form + [Str(payer)]
  }

  // ---------------------------------------------------------------------
  // Properties of the parser

  lemma {:induction false} NatStrValue(n: nat)
    ensures DigitsValue(NatStr(n)) == n
  {
    if n >= 10 {
      NatStrValue(n / 10);
      var s := NatStr(n);
      assert s[..|s| - 1] == NatStr(n / 10);
    }
  }

  lemma TrimNoSpace(s: string)
    requires |s| > 0 && !IntSpace(s[0]) && !IntSpace(s[|s| - 1])
    ensures TrimStart(s) == s && TrimEnd(s) == s
  {
  }

  lemma NoCommaInDigits(s: string)
    requires AllDigits(s)
    ensures ',' !in s
  {
    forall i | 0 <= i < |s| ensures s[i] != ',' {
      assert IsDigit(s[i]);
    }
  }

  lemma DigitNotSpace(c: char)
    requires IsDigit(c)
    ensures !IsSpace(c) && c != '-' && c != '+' && c != ','
  {
  }

  lemma ParseUnsigned(t: string)
    requires |t| > 0 && AllDigits(t)
    ensures ParseInt(t) == Some(DigitsValue(t))
  {
    DigitNotSpace(t[0]);
    DigitNotSpace(t[|t| - 1]);
    TrimNoSpace(t);
    assert TrimEnd(TrimStart(t)) == t;
  }

  lemma ParseNegative(t: string)
    requires |t| > 0 && AllDigits(t)
    ensures ParseInt(['-'] + t) == Some(-(DigitsValue(t) as int))
  {
    var s := ['-'] + t;
    assert s[0] == '-' && |s| > 1;
    assert s[1..] == t;
    DigitNotSpace(t[|t| - 1]);
    assert s[|s| - 1] == t[|t| - 1];
    TrimNoSpace(s);
    assert TrimEnd(TrimStart(s)) == s;
  }

  /** `int(str(n)) == n`. */
  lemma StrParses(n: int)
    ensures ParseInt(Str(n)) == Some(n)
    ensures ',' !in Str(n) && !Blank(Str(n))
  {
    var m: nat := if n < 0 then -n else n;
    var digits := NatStr(m);
    NatStrValue(m);
    NoCommaInDigits(digits);
    DigitNotSpace(digits[0]);
    if n < 0 {
      ParseNegative(digits);
      assert Str(n) == ['-'] + digits;
    } else {
      ParseUnsigned(digits);
      assert Str(n) == digits;
    }
    assert !IsSpace(Str(n)[0]);
  }

  lemma {:induction false} PiecesOfNoComma(x: string)
    requires ',' !in x
    ensures Pieces(x) == [x]
  {
    if |x| > 0 {
      PiecesOfNoComma(x[1..]);
      assert [x[0]] + x[1..] == x;
    }
  }

  /** Splitting distributes over a comma. */
  lemma {:induction false} PiecesConcat(a: string, b: string)
    ensures Pieces(a + [','] + b) == Pieces(a) + Pieces(b)
  {
    var s := a + [','] + b;
    if |a| == 0 {
      assert s[0] == ',' && s[1..] == b;
    } else {
      var t := a[1..] + [','] + b;
      assert s[0] == a[0] && s[1..] == t;
      PiecesConcat(a[1..], b);
      var rest, pb := Pieces(a[1..]), Pieces(b);
      if a[0] == ',' {
        assert [""] + (rest + pb) == ([""] + rest) + pb;
      } else {
        JoinFirstPiece([a[0]], rest, pb);
      }
    }
  }

  /** Prefixing the first piece of `rest + pb` is prefixing the first piece of `rest`, when `rest` has one. */
  lemma JoinFirstPiece(x: string, rest: seq<string>, pb: seq<string>)
    requires |rest| > 0
    ensures [x + (rest + pb)[0]] + (rest + pb)[1..] == ([x + rest[0]] + rest[1..]) + pb
  {
    assert (rest + pb)[0] == rest[0];
    assert (rest + pb)[1..] == rest[1..] + pb;
  }

  lemma AppendAssoc(x: Option<seq<int>>, y: Option<seq<int>>, z: Option<seq<int>>)
    ensures Append(x, Append(y, z)) == Append(Append(x, y), z)
  {
    if x.Some? && y.Some? && z.Some? {
      assert x.value + (y.value + z.value) == (x.value + y.value) + z.value;
    }
  }

  lemma {:induction false} ParseAllConcat(p: seq<string>, q: seq<string>)
    ensures ParseAll(p + q) == Append(ParseAll(p), ParseAll(q))
  {
    if |p| == 0 {
      assert p + q == q;
      assert Append(Some([]), ParseAll(q)) == ParseAll(q) by {
        if ParseAll(q).Some? {
          assert [] + ParseAll(q).value == ParseAll(q).value;
        }
      }
    } else {
      ParseAllConcat(p[1..], q);
      assert (p + q)[0] == p[0] && (p + q)[1..] == p[1..] + q;
      AppendAssoc(ParsePiece(p[0]), ParseAll(p[1..]), ParseAll(q));
    }
  }

  lemma ParseIsParseAll(s: string)
    ensures Parse(s) == ParseAll(Pieces(s))
  {
    if s == "" {
      assert Pieces(s) == [""];
      assert ParsePiece("") == Some([]);
      assert ParseAll([""]) == Append(Some([]), ParseAll([]));
      var none: seq<int> := [];
      assert none + none == none;
    }
  }

  /** Parsing distributes over a comma: the pieces on either side are parsed independently, in order. */
  lemma ParseConcat(a: string, b: string)
    ensures Parse(a + [','] + b) == Append(Parse(a), Parse(b))
  {
    PiecesConcat(a, b);
    ParseAllConcat(Pieces(a), Pieces(b));
    ParseIsParseAll(a);
    ParseIsParseAll(b);
  }

  /** Text that `strip()` reduces to nothing is refused by `int()` too. */
  lemma BlankRefused(x: string)
    requires Blank(x)
    ensures ParseInt(x) == None
  {
    BlankTrimStart(x);
    BlankTrimEnd(TrimStart(x));
    var t := TrimEnd(TrimStart(x));
    if |t| > 0 {
      assert IsSpace(t[0]);
    }
  }

  lemma {:induction false} BlankTrimStart(x: string)
    requires Blank(x)
    ensures Blank(TrimStart(x))
  {
    if |x| > 0 && IntSpace(x[0]) {
      assert forall i :: 0 <= i < |x[1..]| ==> x[1..][i] == x[i + 1];
      BlankTrimStart(x[1..]);
    }
  }

  lemma {:induction false} BlankTrimEnd(x: string)
    requires Blank(x)
    ensures Blank(TrimEnd(x))
  {
    if |x| > 0 && IntSpace(x[|x| - 1]) {
      assert forall i :: 0 <= i < |x| - 1 ==> x[..|x| - 1][i] == x[i];
      BlankTrimEnd(x[..|x| - 1]);
    }
  }

  /**
   * A number preceded by one of the separators U+001C..U+001F: `strip()`
   * keeps the piece, since the digits are not whitespace, but `int()` does
   * not skip the separator and raises, so the whole column fails to read.
   */
  lemma SeparatorRefused(c: char, digits: string)
    requires '\U{1c}' <= c <= '\U{1f}' && |digits| > 0 && AllDigits(digits)
    ensures !Blank([c] + digits)
    ensures ParseInt([c] + digits) == None
    ensures Parse([c] + digits) == None
  {
    var x := [c] + digits;
    SeparatorNotSkipped(c, digits);
    assert x[1] == digits[0] && !IsSpace(digits[0]);
    NoCommaInDigits(digits);
    assert ',' !in x by {
      forall i | 0 <= i < |x| ensures x[i] != ',' {
        if i > 0 {
          assert x[i] == digits[i - 1];
        }
      }
    }
    ParseSingle(x);
  }

  lemma SeparatorNotSkipped(c: char, digits: string)
    requires '\U{1c}' <= c <= '\U{1f}' && |digits| > 0 && AllDigits(digits)
    ensures ParseInt([c] + digits) == None
  {
    var x := [c] + digits;
    assert x[|x| - 1] == digits[|digits| - 1];
    TrimNoSpace(x);
    assert TrimEnd(TrimStart(x)) == x;
    assert !IsDigit(x[0]) && x[0] != '-' && x[0] != '+';
  }

  /** A single piece: skipped when blank, otherwise parsed by `int()`. */
  lemma ParseSingle(x: string)
    requires ',' !in x
    ensures Parse(x) == if Blank(x) then Some([]) else if ParseInt(x).Some? then Some([ParseInt(x).value]) else None
  {
    PiecesOfNoComma(x);
    ParseIsParseAll(x);
    assert ParseAll([x]) == Append(ParsePiece(x), ParseAll([]));
    if ParsePiece(x).Some? {
      assert ParsePiece(x).value + [] == ParsePiece(x).value;
    }
  }

  lemma {:induction false} JoinSnoc(xs: seq<string>, y: string)
    ensures Join(xs + [y]) == if |xs| == 0 then y else Join(xs) + [','] + y
    decreases |xs|
  {
    var xy := xs + [y];
    if |xs| > 1 {
      assert xy[0] == xs[0] && xy[1..] == xs[1..] + [y];
      assert Join(xy) == xs[0] + [','] + Join(xs[1..] + [y]);
      JoinSnoc(xs[1..], y);
      assert Join(xs) == xs[0] + [','] + Join(xs[1..]);
    } else if |xs| == 1 {
      assert xy == [xs[0], y];
      assert xy[1..] == [y];
    } else {
      assert xy == [y];
    }
  }

  /** The ids stored by add_bill read back unchanged: `Parse(Join(map(str, ids))) == ids`. */
  lemma {:induction false} JoinParses(ids: seq<int>)
    ensures Parse(Join(Strs(ids))) == Some(ids)
  {
    if |ids| == 1 {
      StrParses(ids[0]);
      ParseSingle(Str(ids[0]));
      assert Strs(ids) == [Str(ids[0])] + Strs(ids[1..]);
      assert Join(Strs(ids)) == Str(ids[0]);
      assert ids == [ids[0]];
    } else if |ids| > 1 {
      JoinParses(ids[1..]);
      JoinParsesStep(ids);
    }
  }

  /** The column holding just `str(n)` reads back as `[n]`. */
  lemma StrPiece(n: int)
    ensures Parse(Str(n)) == Some([n])
  {
    StrParses(n);
    ParseSingle(Str(n));
  }

  /** One more id in front of a joined list that reads back. */
  lemma JoinParsesStep(ids: seq<int>)
    requires |ids| > 1 && Parse(Join(Strs(ids[1..]))) == Some(ids[1..])
    ensures Parse(Join(Strs(ids))) == Some(ids)
  {
    var xs := Strs(ids);
    var a, rest := Str(ids[0]), Join(Strs(ids[1..]));
    assert xs[0] == a && xs[1..] == Strs(ids[1..]);
    assert Join(xs) == a + [','] + rest;
    StrPiece(ids[0]);
    ParseConcat(a, rest);
    HeadTail(ids);
  }

  lemma HeadTail(s: seq<int>)
    requires |s| > 0
    ensures [s[0]] + s[1..] == s
  {
  }

  /** Every id whose text is one of the joined form values is among the parsed participants. */
  lemma {:induction false} JoinedMember(xs: seq<string>, p: int)
    requires Str(p) in xs
    requires Parse(Join(xs)).Some?
    ensures p in Parse(Join(xs)).value
  {
    StrParses(p);
    ParseSingle(Str(p));
    if |xs| > 1 {
      ParseConcat(xs[0], Join(xs[1..]));
      if xs[0] != Str(p) {
        JoinedMember(xs[1..], p);
      }
    }
  }

  /**
   * After add_bill's auto-inclusion (app.py:173-175) and join (app.py:181),
   * the payer is among the bill's participants whenever the chosen ids parse,
   * and the chosen ids keep their order ahead of it.
   */
  lemma PayerIncluded(form: seq<string>, payer: int)
    requires Parse(Join(form)).Some?
    ensures Parse(Join(WithPayer(form, payer))).Some?
    ensures payer in Parse(Join(WithPayer(form, payer))).value
    ensures Str(payer) !in form ==> Parse(Join(WithPayer(form, payer))) == Some(Parse(Join(form)).value + [payer])
  {
    StrParses(payer);
    ParseSingle(Str(payer));
    if Str(payer) !in form {
      JoinSnoc(form, Str(payer));
      if |form| > 0 {
        ParseConcat(Join(form), Str(payer));
      } else {
        assert Parse(Join(form)).value + [payer] == [payer];
      }
    }
    JoinedMember(WithPayer(form, payer), payer);
  }
}
