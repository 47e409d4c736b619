/** Cell references in formulas of the spreadsheet (calc.c, get_xy): parsing, and the rewrite in
    place when rows or columns are inserted, deleted or copied. */
module References {
  import opened Bytes

  const FORM_SIZE: nat := 70
  const DOLLAR: byte := 36

  predicate IsLetter(b: byte)
  {
    65 <= b <= 90
  }

  predicate IsDigit(b: byte)
  {
    48 <= b <= 57
  }

  /** Small letters are none. */
  lemma Characters(b: byte)
    ensures IsLetter(b) <==> b as char in "ABCDEFGHIJKLMNOPQRSTUVWXYZ"
    ensures IsDigit(b) <==> b as char in "0123456789"
  {
  }

  /** Conversion to a 16-bit short. */
  function Short(x: int): (r: int)
    ensures -0x8000 <= r < 0x8000
  {
    if -0x8000 <= x < 0x8000 then x else (x + 0x8000) % 0x1_0000 - 0x8000
  }

  // ---------------------------------------------------------------
  // What a reference means
  // ---------------------------------------------------------------

  /** How many characters were taken in, and their value. */
  datatype Scan = Scan(length: nat, value: int)

  /** Column letters at the front of t, as far as they go. */
  function Letters(t: seq<byte>, acc: int): (r: Scan)
    ensures r.length <= |t| && (r.length < |t| ==> !IsLetter(t[r.length]))
    decreases |t|
  {
    if t != [] && IsLetter(t[0]) then
      var r := Letters(t[1..], Short(acc * 26 + t[0] - 65 + 1));
      Scan(r.length + 1, r.value)
    else
      Scan(0, acc)
  }

  /** Row digits at the front of t. */
  function Digits(t: seq<byte>, acc: int): (r: Scan)
    ensures r.length <= |t| && (r.length < |t| ==> !IsDigit(t[r.length]))
    decreases |t|
  {
    if t != [] && IsDigit(t[0]) then
      var r := Digits(t[1..], Short(acc * 10 + t[0] - 48));
      Scan(r.length + 1, r.value)
    else
      Scan(0, acc)
  }

  predicate DollarAt(t: seq<byte>)
  {
    t != [] && t[0] == DOLLAR
  }

  /** A reference: its length, zero-based coordinates, and which of them are absolute. */
  datatype Ref = Ref(length: nat, row: int, col: int, absRow: bool, absCol: bool)

  function ParseRow(t: seq<byte>): (q: Ref)
    ensures q.length <= |t| && (q.length < |t| ==> !IsDigit(t[q.length]))
  {
    var absRow := DollarAt(t);
    var row := Digits(if absRow then t[1..] else t, 0);
    Ref(row.length + if absRow then 1 else 0, Short(row.value - 1), 0, absRow, false)
  }

  function ParseCol(t: seq<byte>): (q: Ref)
    ensures q.length <= |t| && (q.length < |t| ==> !IsDigit(t[q.length]))
  {
    var col := Letters(t, 0);
    var q := ParseRow(t[col.length..]);
    q.(length := q.length + col.length, col := Short(col.value - 1))
  }

  /** The reference at the front of t. */
  function Parse(t: seq<byte>): (q: Ref)
    ensures q.length <= |t| && (q.length < |t| ==> !IsDigit(t[q.length]))
  {
    if DollarAt(t) then
      var q := ParseCol(t[1..]);
      q.(length := q.length + 1, absCol := true)
    else
      ParseCol(t)
  }

  // ---------------------------------------------------------------
  // Reading step by step
  // ---------------------------------------------------------------

  ghost predicate ScanKey(k: int)
  {
    true
  }

  /** The letters from position i on end at position j and mean v. */
  ghost predicate LettersTo(s: seq<byte>, i: nat, j: nat, v: int)
  {
    i <= j <= |s| && forall key {:trigger ScanKey(key)} :: Folded(key) ==> Letters(s[i..], 0) == Scan(j - i, v)
  }

  ghost predicate DigitsTo(s: seq<byte>, i: nat, j: nat, v: int)
  {
    i <= j <= |s| && forall key {:trigger ScanKey(key)} :: Folded(key) ==> Digits(s[i..], 0) == Scan(j - i, v)
  }

  /** The loop over letters from position i on has come to position ip, with that value. */
  ghost predicate LettersAt(s: seq<byte>, i: nat, ip: nat, value: int)
  {
    i <= ip <= |s| && forall key {:trigger ScanKey(key)} :: Folded(key) ==> Letters(s[i..], 0) == Scan(Letters(s[ip..], value).length + ip - i, Letters(s[ip..], value).value)
  }

  lemma LettersStart(s: seq<byte>, i: nat)
    requires i <= |s|
    ensures LettersAt(s, i, i, 0)
  {
  }

  lemma {:induction false} LettersNext(s: seq<byte>, i: nat, ip: nat, value: int)
    requires LettersAt(s, i, ip, value) && ip < |s|
    ensures if IsLetter(s[ip]) then LettersAt(s, i, ip + 1, Short(value * 26 + s[ip] - 65 + 1)) else LettersTo(s, i, ip, value)
  {
    assert s[ip..][0] == s[ip] && s[ip..][1..] == s[ip + 1..];
    assert ScanKey(0);
  }

  /** The loop over digits from position i on has come to position ip, with that value. */
  ghost predicate DigitsAt(s: seq<byte>, i: nat, ip: nat, value: int)
  {
    i <= ip <= |s| && forall key {:trigger ScanKey(key)} :: Folded(key) ==> Digits(s[i..], 0) == Scan(Digits(s[ip..], value).length + ip - i, Digits(s[ip..], value).value)
  }

  lemma DigitsStart(s: seq<byte>, i: nat)
    requires i <= |s|
    ensures DigitsAt(s, i, i, 0)
  {
  }

  lemma {:induction false} DigitsNext(s: seq<byte>, i: nat, ip: nat, value: int)
    requires DigitsAt(s, i, ip, value) && ip < |s|
    ensures if IsDigit(s[ip]) then DigitsAt(s, i, ip + 1, Short(value * 10 + s[ip] - 48)) else DigitsTo(s, i, ip, value)
  {
    assert s[ip..][0] == s[ip] && s[ip..][1..] == s[ip + 1..];
    assert ScanKey(0);
  }

  /** From position i on, q is what the row part, ... */
  ghost predicate RowIs(s: seq<byte>, i: nat, q: Ref)
  {
    i + q.length <= |s| && forall key {:trigger ScanKey(key)} :: Folded(key) ==> ParseRow(s[i..]) == q
  }

  /** ... the column and row part, ... */
  ghost predicate ColIs(s: seq<byte>, i: nat, q: Ref)
  {
    i + q.length <= |s| && forall key {:trigger ScanKey(key)} :: Folded(key) ==> ParseCol(s[i..]) == q
  }

  /** ... or the whole reference says. */
  ghost predicate RefIs(s: seq<byte>, i: nat, q: Ref)
  {
    i + q.length <= |s| && forall key {:trigger ScanKey(key)} :: Folded(key) ==> Parse(s[i..]) == q
  }

  lemma RowFrom(s: seq<byte>, i: nat, absRow: bool, j: nat, v: int)
    requires i < |s| && absRow == (s[i] == DOLLAR) && DigitsTo(s, if absRow then i + 1 else i, j, v)
    ensures RowIs(s, i, Ref(j - i, Short(v - 1), 0, absRow, false))
  {
    assert ScanKey(0);
    if absRow { assert s[i..][1..] == s[i + 1..]; }
  }

  lemma ColFrom(s: seq<byte>, i: nat, j: nat, v: int, q: Ref)
    requires LettersTo(s, i, j, v) && RowIs(s, j, q)
    ensures ColIs(s, i, q.(length := q.length + j - i, col := Short(v - 1)))
  {
    assert ScanKey(0);
    assert s[i..][j - i..] == s[j..];
  }

  lemma RefFrom(s: seq<byte>, i: nat, absCol: bool, q: Ref)
    requires i < |s| && absCol == (s[i] == DOLLAR) && ColIs(s, if absCol then i + 1 else i, q) && !q.absCol
    ensures RefIs(s, i, if absCol then q.(length := q.length + 1, absCol := true) else q)
  {
    assert ScanKey(0);
    if absCol { assert s[i..][1..] == s[i + 1..]; }
  }

  // ---------------------------------------------------------------
  // The canonical name of a cell
  // ---------------------------------------------------------------

  function ColName(c: nat): seq<byte>
    requires c <= 255
  {
    if c < 26 then [65 + c] else [64 + c / 26, 65 + c % 26]
  }

  function RowName(r: nat): seq<byte>
    requires r <= 255
  {
    if r + 1 < 10 then [48 + r + 1]
    else if r + 1 < 100 then [48 + (r + 1) / 10, 48 + (r + 1) % 10]
    else [48 + (r + 1) / 100, 48 + (r + 1) % 100 / 10, 48 + (r + 1) % 10]
  }

  function Sign(b: bool): seq<byte>
  {
    if b then [DOLLAR] else []
  }

  /** The number of characters in a cell's name. */
  function NameLength(r: int, c: int, absRow: bool, absCol: bool): nat
  {
    (if r < 9 then 1 else if r < 99 then 2 else 3) + (if c < 26 then 1 else 2) + (if absRow then 1 else 0) + (if absCol then 1 else 0)
  }

  function Name(r: nat, c: nat, absRow: bool, absCol: bool): (n: seq<byte>)
    requires r <= 255 && c <= 255
    ensures |n| == NameLength(r, c, absRow, absCol)
  {
    Sign(absCol) + ColName(c) + Sign(absRow) + RowName(r)
  }

  /** n is the name of a cell. */
  ghost predicate NameIs(r: int, c: int, absRow: bool, absCol: bool, n: seq<byte>)
  {
    && 0 <= r <= 255 && 0 <= c <= 255 && |n| == NameLength(r, c, absRow, absCol)
    && forall key {:trigger ScanKey(key)} :: Folded(key) ==> n == Name(r, c, absRow, absCol)
  }

  lemma FrontOf(x: byte, b: seq<byte>)
    ensures ([x] + b)[0] == x && ([x] + b)[1..] == b
  {
  }

  lemma {:induction false} LetterStep(x: byte, t: seq<byte>, acc: int)
    requires IsLetter(x)
    ensures Letters([x] + t, acc) == Scan(Letters(t, Short(acc * 26 + x - 64)).length + 1, Letters(t, Short(acc * 26 + x - 64)).value)
  {
    FrontOf(x, t);
  }

  lemma {:induction false} ColParses(c: nat, b: seq<byte>)
    requires c <= 255 && (b != [] ==> !IsLetter(b[0]))
    ensures Letters(ColName(c) + b, 0) == Scan(|ColName(c)|, c + 1)
  {
    var x := 65 + c % 26;
    if c < 26 {
      LetterStep(x, b, 0);
    } else {
      assert ColName(c) + b == [64 + c / 26] + ([x] + b);
      LetterStep(64 + c / 26, [x] + b, 0);
      LetterStep(x, b, c / 26);
    }
  }

  /** Digits at the front of t, with a value "acc" already read, give value v after n of them. */
  ghost predicate DigitsGive(t: seq<byte>, acc: int, n: nat, v: int)
  {
    forall key {:trigger ScanKey(key)} :: Folded(key) ==> Digits(t, acc) == Scan(n, v)
  }

  lemma {:induction false} DigitStep(o: nat, t: seq<byte>, acc: nat, n: nat, v: int)
    requires o < 10 && acc < 100 && DigitsGive(t, acc * 10 + o, n, v)
    ensures DigitsGive([48 + o] + t, acc, n + 1, v)
  {
    assert ScanKey(0);
    FrontOf(48 + o, t);
  }

  lemma {:induction false} DigitsStop(b: seq<byte>, acc: int)
    requires b != [] ==> !IsDigit(b[0])
    ensures DigitsGive(b, acc, 0, acc)
  {
    assert Digits(b, acc) == Scan(0, acc);
  }

  lemma TwoDigits(t: nat, o: nat, b: seq<byte>, acc: nat)
    requires t < 10 && o < 10 && acc < 10 && (b != [] ==> !IsDigit(b[0]))
    ensures DigitsGive([48 + t, 48 + o] + b, acc, 2, acc * 100 + t * 10 + o)
  {
    DigitsStop(b, acc * 100 + t * 10 + o);
    DigitStep(o, b, acc * 10 + t, 0, acc * 100 + t * 10 + o);
    DigitStep(t, [48 + o] + b, acc, 1, acc * 100 + t * 10 + o);
    assert [48 + t, 48 + o] + b == [48 + t] + ([48 + o] + b);
  }

  lemma ThreeDigits(h: nat, t: nat, o: nat, b: seq<byte>)
    requires h < 10 && t < 10 && o < 10 && (b != [] ==> !IsDigit(b[0]))
    ensures DigitsGive([48 + h, 48 + t, 48 + o] + b, 0, 3, h * 100 + t * 10 + o)
  {
    TwoDigits(t, o, b, h);
    DigitStep(h, [48 + t, 48 + o] + b, 0, 2, h * 100 + t * 10 + o);
    assert [48 + h, 48 + t, 48 + o] + b == [48 + h] + ([48 + t, 48 + o] + b);
  }

  lemma DecimalPlaces(n: nat)
    ensures n / 100 * 100 + n % 100 / 10 * 10 + n % 10 == n
    ensures n < 100 ==> n % 100 / 10 == n / 10
  {
    var h, r := n / 100, n % 100;
    assert n == 10 * (10 * h + r / 10) + r % 10;
    assert n % 10 == r % 10;
  }

  lemma RowGives(r: nat, b: seq<byte>)
    requires r <= 255 && (b != [] ==> !IsDigit(b[0]))
    ensures DigitsGive(RowName(r) + b, 0, |RowName(r)|, r + 1)
  {
    var n := r + 1;
    DecimalPlaces(n);
    if n < 10 {
      DigitsStop(b, n);
      DigitStep(n, b, 0, 0, n);
    } else if n < 100 {
      TwoDigits(n / 10, n % 10, b, 0);
    } else {
      ThreeDigits(n / 100, n % 100 / 10, n % 10, b);
    }
  }

  lemma {:induction false} RowParses(r: nat, b: seq<byte>)
    requires r <= 255 && (b != [] ==> !IsDigit(b[0]))
    ensures Digits(RowName(r) + b, 0) == Scan(|RowName(r)|, r + 1)
  {
    RowGives(r, b);
    assert ScanKey(0);
  }

  lemma RowPart(r: nat, absRow: bool, b: seq<byte>)
    requires r <= 255 && (b != [] ==> !IsDigit(b[0]))
    ensures ParseRow(Sign(absRow) + RowName(r) + b) == Ref(|Sign(absRow) + RowName(r)|, r, 0, absRow, false)
    ensures !IsLetter((Sign(absRow) + RowName(r) + b)[0])
  {
    var t := Sign(absRow) + RowName(r) + b;
    RowParses(r, b);
    if absRow {
      assert t == [DOLLAR] + (RowName(r) + b);
      FrontOf(DOLLAR, RowName(r) + b);
    } else {
      assert t == RowName(r) + b;
      assert t[0] == RowName(r)[0];
    }
  }

  lemma ColPart(r: nat, c: nat, absRow: bool, b: seq<byte>)
    requires r <= 255 && c <= 255 && (b != [] ==> !IsDigit(b[0]))
    ensures ParseCol(ColName(c) + (Sign(absRow) + RowName(r) + b)) == Ref(|ColName(c) + Sign(absRow) + RowName(r)|, r, c, absRow, false)
  {
    var rest := Sign(absRow) + RowName(r) + b;
    RowPart(r, absRow, b);
    ColParses(c, rest);
    assert (ColName(c) + rest)[|ColName(c)|..] == rest;
  }

  /** A canonical name, not followed by a digit, parses to its cell. */
  lemma NameParses(r: nat, c: nat, absRow: bool, absCol: bool, b: seq<byte>)
    requires r <= 255 && c <= 255 && (b != [] ==> !IsDigit(b[0]))
    ensures Parse(Name(r, c, absRow, absCol) + b) == Ref(|Name(r, c, absRow, absCol)|, r, c, absRow, absCol)
  {
    var t := ColName(c) + (Sign(absRow) + RowName(r) + b);
    ColPart(r, c, absRow, b);
    NameSplit(r, c, absRow, absCol, b);
    if absCol {
      FrontOf(DOLLAR, t);
    } else {
      NotADollar(c, Sign(absRow) + RowName(r) + b);
    }
  }

  lemma NameSplit(r: nat, c: nat, absRow: bool, absCol: bool, b: seq<byte>)
    requires r <= 255 && c <= 255
    ensures var t := ColName(c) + (Sign(absRow) + RowName(r) + b);
      Name(r, c, absRow, absCol) + b == if absCol then [DOLLAR] + t else t
    ensures |Name(r, c, absRow, absCol)| == |ColName(c) + Sign(absRow) + RowName(r)| + if absCol then 1 else 0
  {
  }

  lemma NotADollar(c: nat, b: seq<byte>)
    requires c <= 255
    ensures !DollarAt(ColName(c) + b)
  {
    assert (ColName(c) + b)[0] == ColName(c)[0];
  }

  // ---------------------------------------------------------------
  // The rewrite
  // ---------------------------------------------------------------

  /** local_edit: the first row and column concerned, and by how much cells move. */
  datatype Edit = Edit(testRow: nat, testCol: nat, delRow: int, delCol: int)

  function NewRow(q: Ref, e: Edit): int
  {
    if q.absRow then q.row else q.row + e.delRow
  }

  function NewCol(q: Ref, e: Edit): int
  {
    if q.absCol then q.col else q.col + e.delCol
  }

  /** The reference that starts at position i of a text. */
  function RefAt(s: seq<byte>, i: nat): (q: Ref)
    requires i <= |s|
    ensures i + q.length <= |s|
  {
    Parse(s[i..])
  }

  /** The guards of the rewrite, for a reference in a text of n characters. */
  predicate Moves(q: Ref, n: nat, e: Edit)
  {
    && q.row >= e.testRow && q.col >= e.testCol && q.length > 0
    && 0 <= NewRow(q, e) <= 255 && 0 <= NewCol(q, e) <= 255
    && n + NameLength(NewRow(q, e), NewCol(q, e), q.absRow, q.absCol) - q.length < FORM_SIZE
  }

  predicate Applies(s: seq<byte>, i: nat, e: Edit)
    requires i <= |s|
  {
    Moves(RefAt(s, i), |s|, e)
  }

  /** The text with the reference at i replaced by the shifted one. */
  function Rewritten(s: seq<byte>, i: nat, e: Edit): seq<byte>
    requires i <= |s| && Applies(s, i, e)
  {
    var q := RefAt(s, i);
    s[..i] + Name(NewRow(q, e), NewCol(q, e), q.absRow, q.absCol) + s[i + q.length..]
  }

  /** The rewrite in terms of the reference that was read. */
  lemma RewriteOf(s: seq<byte>, i: nat, q: Ref, e: Edit)
    requires RefIs(s, i, q)
    ensures q == RefAt(s, i) && (Applies(s, i, e) <==> Moves(q, |s|, e))
    ensures Moves(q, |s|, e) ==> Rewritten(s, i, e) == s[..i] + Name(NewRow(q, e), NewCol(q, e), q.absRow, q.absCol) + s[i + q.length..]
  {
    assert ScanKey(0);
  }

  /** Parsing the new text gives the shifted coordinates and the same signs, and ends just
      behind the new reference. */
  lemma RewrittenParses(s: seq<byte>, i: nat, e: Edit)
    requires i <= |s| && Applies(s, i, e)
    ensures i <= |Rewritten(s, i, e)|
    ensures var q := RefAt(s, i);
      RefAt(Rewritten(s, i, e), i)
        == Ref(|Name(NewRow(q, e), NewCol(q, e), q.absRow, q.absCol)|, NewRow(q, e), NewCol(q, e), q.absRow, q.absCol)
  {
    var q := RefAt(s, i);
    var n, b := Name(NewRow(q, e), NewCol(q, e), q.absRow, q.absCol), s[i + q.length..];
    WithoutPrefix(s[..i], n, b);
    assert |s[..i]| == i && Rewritten(s, i, e)[i..] == n + b;
    assert b != [] ==> b[0] == s[i..][q.length];
    NameParses(NewRow(q, e), NewCol(q, e), q.absRow, q.absCol, b);
    assert RefAt(Rewritten(s, i, e), i) == Parse(n + b);
  }

  /** What an edit makes of a coordinate: one with a "$" in front stays, any other is shifted. */
  ghost predicate Follows(x: int, del: int, fixed: bool, y: int)
  {
    (fixed ==> y == x) && (!fixed ==> y == x + del)
  }

  /** The reference p is what the edit makes of q. */
  ghost predicate RefFollows(q: Ref, e: Edit, p: Ref)
  {
    && Follows(q.row, e.delRow, q.absRow, p.row) && Follows(q.col, e.delCol, q.absCol, p.col)
    && p.absRow == q.absRow && p.absCol == q.absCol
  }

  /** After a rewrite the text has the reference that the edit makes of the old one, with the same signs. */
  lemma DollarsStay(s: seq<byte>, i: nat, e: Edit)
    requires i <= |s| && Applies(s, i, e)
    ensures i <= |Rewritten(s, i, e)| && RefFollows(RefAt(s, i), e, RefAt(Rewritten(s, i, e), i))
  {
    RewrittenParses(s, i, e);
  }

  /** The rewrite takes place exactly if the old reference is not in front of what moves, the new one is a
      cell of the sheet, and the new text fits into the buffer. */
  lemma AppliesIff(s: seq<byte>, i: nat, e: Edit, r: int, c: int)
    requires i <= |s| && Follows(RefAt(s, i).row, e.delRow, RefAt(s, i).absRow, r) && Follows(RefAt(s, i).col, e.delCol, RefAt(s, i).absCol, c)
    ensures var q := RefAt(s, i);
      Applies(s, i, e) <==>
        && q.length > 0 && q.row >= e.testRow && q.col >= e.testCol && 0 <= r <= 255 && 0 <= c <= 255
        && |s| - q.length + |Name(r, c, q.absRow, q.absCol)| < 70
  {
  }

  /** "$A$1" stays when a row or a column is inserted. */
  lemma BothDollars(s: seq<byte>, e: Edit)
    requires s == [36, 65, 36, 49, 0] && e in {Edit(0, 0, 1, 0), Edit(0, 0, 0, 1)}
    ensures Applies(s, 0, e) && Rewritten(s, 0, e) == s
  {
    FirstNames();
    NameInFront(s, Name(0, 0, true, true), 0, 0, true, true, [0]);
    assert [36, 65, 36, 49] + [0] == s;
  }

  /** "B1" becomes "C1" when a column is inserted. */
  lemma NoDollars(s: seq<byte>, e: Edit)
    requires s == [66, 49, 0] && e == Edit(0, 0, 0, 1)
    ensures Applies(s, 0, e) && Rewritten(s, 0, e) == [67, 49, 0]
  {
    FirstNames();
    NameInFront(s, Name(0, 1, false, false), 0, 1, false, false, [0]);
    assert [67, 49] + [0] == [67, 49, 0];
  }

  lemma NameInFront(s: seq<byte>, n: seq<byte>, r: nat, c: nat, absRow: bool, absCol: bool, b: seq<byte>)
    requires r <= 255 && c <= 255 && n == Name(r, c, absRow, absCol) && s == n + b && (b != [] ==> !IsDigit(b[0]))
    ensures RefAt(s, 0) == Ref(|n|, r, c, absRow, absCol) && s[..0] == [] && s[|n|..] == b
  {
    assert s[0..] == n + b;
    NameParses(r, c, absRow, absCol, b);
  }

  lemma WithoutPrefix(a: seq<byte>, m: seq<byte>, b: seq<byte>)
    ensures (a + m + b)[|a|..] == m + b
  {
  }

  function Reversed(e: Edit): Edit
  {
    e.(delRow := -e.delRow, delCol := -e.delCol)
  }

  /** The text around the reference is the same after a rewrite. */
  lemma AroundRewritten(s: seq<byte>, i: nat, e: Edit)
    requires i <= |s| && Applies(s, i, e)
    ensures var t, n := Rewritten(s, i, e), |Name(NewRow(RefAt(s, i), e), NewCol(RefAt(s, i), e), RefAt(s, i).absRow, RefAt(s, i).absCol)|;
      i + n <= |t| && t[..i] == s[..i] && t[i + n..] == s[i + RefAt(s, i).length..]
      && |t| + RefAt(s, i).length == |s| + n
  {
  }

  /** Insertion, then deletion at the same place, gives the text with the reference in its
      canonical form. */
  lemma ThereAndBack(s: seq<byte>, i: nat, e: Edit)
    requires i <= |s| && Applies(s, i, e) && e.delRow >= 0 && e.delCol >= 0
    requires RefAt(s, i).row <= 255 && RefAt(s, i).col <= 255
    ensures i <= |Rewritten(s, i, e)|
    ensures var q, t := RefAt(s, i), Rewritten(s, i, e);
      var n := Name(q.row, q.col, q.absRow, q.absCol);
      if |s| + NameLength(q.row, q.col, q.absRow, q.absCol) - q.length < FORM_SIZE then
        Applies(t, i, Reversed(e)) && Rewritten(t, i, Reversed(e)) == s[..i] + n + s[i + q.length..]
      else
        !Applies(t, i, Reversed(e))
  {
    RewrittenParses(s, i, e);
    AroundRewritten(s, i, e);
    var q, t := RefAt(s, i), Rewritten(s, i, e);
    var p := RefAt(t, i);
    assert NewRow(p, Reversed(e)) == q.row && NewCol(p, Reversed(e)) == q.col;
    assert p.row >= e.testRow && p.col >= e.testCol;
  }

  /** ... so it restores the text if and only if the reference was written canonically. */
  lemma RestoredIffCanonical(s: seq<byte>, i: nat, r: nat, c: nat)
    requires i <= |s| && RefAt(s, i).row == r <= 255 && RefAt(s, i).col == c <= 255
    ensures var q := RefAt(s, i);
      s[..i] + Name(r, c, q.absRow, q.absCol) + s[i + q.length..] == s <==> s[i..i + q.length] == Name(r, c, q.absRow, q.absCol)
  {
    var n := RefAt(s, i).length;
    CutInThree(s, i, n);
    SameMiddle(s[..i], Name(r, c, RefAt(s, i).absRow, RefAt(s, i).absCol), s[i..i + n], s[i + n..]);
  }

  /** "A01", with a row inserted in front and deleted again, is "A1". */
  lemma LeadingZero(s: seq<byte>, e: Edit)
    requires s == [65, 48, 49] && e == Edit(0, 0, 1, 0)
    ensures Applies(s, 0, e) && Rewritten(s, 0, e) == [65, 50]
    ensures Applies(Rewritten(s, 0, e), 0, Reversed(e)) && Rewritten(Rewritten(s, 0, e), 0, Reversed(e)) == [65, 49] != s
  {
    LeadingZeroThere(s, e);
    FirstNames();
    NothingAround(s, [65, 49]);
    ThereAndBack(s, 0, e);
  }

  lemma LeadingZeroThere(s: seq<byte>, e: Edit)
    requires s == [65, 48, 49] && e == Edit(0, 0, 1, 0)
    ensures RefAt(s, 0) == Ref(3, 0, 0, false, false) && Applies(s, 0, e) && Rewritten(s, 0, e) == [65, 50]
  {
    LeadingZeroParses();
    assert s[0..] == s;
    FirstNames();
    NothingAround(s, [65, 50]);
  }

  lemma FirstNames()
    ensures Name(0, 0, false, false) == [65, 49] && Name(1, 0, false, false) == [65, 50]
    ensures Name(0, 1, false, false) == [66, 49] && Name(0, 2, false, false) == [67, 49] && Name(0, 0, true, true) == [36, 65, 36, 49]
  {
    assert ColName(0) == [65] && ColName(1) == [66] && ColName(2) == [67] && RowName(0) == [49] && RowName(1) == [50] && Sign(false) == [] && Sign(true) == [36];
  }

  lemma NothingAround(s: seq<byte>, n: seq<byte>)
    ensures s[..0] + n + s[|s|..] == n
  {
  }

  lemma LeadingZeroParses()
    ensures Parse([65, 48, 49]) == Ref(3, 0, 0, false, false)
  {
    var t := [48, 49];
    assert [65, 48, 49][1..] == t && t[1..] == [49];
    assert Digits([49], 1 - 1) == Scan(1, 1);
    assert Letters(t, 1) == Scan(0, 1);
  }

  lemma CutInThree(s: seq<byte>, i: nat, n: nat)
    requires i + n <= |s|
    ensures s == s[..i] + s[i..i + n] + s[i + n..]
  {
  }

  lemma SameMiddle(a: seq<byte>, m: seq<byte>, n: seq<byte>, b: seq<byte>)
    ensures a + m + b == a + n + b <==> m == n
  {
    if a + m + b == a + n + b {
      assert |m| == |n|;
      assert m == (a + m + b)[|a|..|a| + |m|];
      assert n == (a + n + b)[|a|..|a| + |n|];
    }
  }
}
