/** File names: parse_name of fileio.c, and the name under which create_file opens the new file. */
module FileNames {
  import opened Bytes
  import opened Directory

  datatype Parsed = Invalid | Name(dir: seq<byte>, fname: seq<byte>, ext: seq<byte>, vers: int)

  const LBRACKET: byte := 91
  const RBRACKET: byte := 93
  const DOT: byte := 46
  const SEMICOLON: byte := 59
  const MINUS: byte := 45
  const PLUS: byte := 43
  const ZERO: byte := 48

  /** strchr as an index; the length stands for NULL. */
  function Find(s: seq<byte>, c: byte): (i: nat)
    ensures i <= |s| && (i < |s| ==> s[i] == c) && c !in s[..i]
  {
    if s == [] then 0 else if s[0] == c then 0
    else
      var i := 1 + Find(s[1..], c);
      assert s[..i] == [s[0]] + s[1..][..i - 1];
      i
  }

  lemma {:induction false} FindIs(s: seq<byte>, t: seq<byte>, c: byte)
    requires c !in s
    ensures Find(s + [c] + t, c) == |s|
  {
    if s != [] {
      assert (s + [c] + t)[1..] == s[1..] + [c] + t;
      FindIs(s[1..], t, c);
    }
  }

  /** The first separator splits a text where it was put together. */
  lemma SplitIs(s: seq<byte>, t: seq<byte>, c: byte)
    requires c !in s
    ensures var p := s + [c] + t;
      Find(p, c) == |s| < |p| && p[..|s|] == s && p[|s| + 1..] == t
  {
    FindIs(s, t, c);
  }

  /** strncpy of at most n characters. */
  function Clip(s: seq<byte>, n: nat): (r: seq<byte>)
    ensures |r| <= n && r <= s
  {
    if |s| <= n then s else s[..n]
  }

  predicate IsDigit(c: byte) { 48 <= c <= 57 }

  /** The value of the digits at the start of s, added to what came before. */
  function Digits(s: seq<byte>, before: nat): nat
  {
    if s == [] || !IsDigit(s[0]) then before else Digits(s[1..], 10 * before + (s[0] - 48))
  }

  /** atoi: white space, a sign, digits. */
  function Atoi(s: seq<byte>): int
  {
    if s == [] then 0
    else if s[0] == BLANK || 9 <= s[0] <= 13 then Atoi(s[1..])
    else if s[0] == MINUS then 0 - Digits(s[1..], 0)
    else if s[0] == PLUS then Digits(s[1..], 0)
    else Digits(s, 0)
  }

  /** The part behind the directory: a name up to the first dot, an extension or a name up to the
      first semicolon, and a version. */
  function ParseRest(dir: seq<byte>, p: seq<byte>): (r: Parsed)
    ensures r.Name? && r.dir == dir
  {
    var dot := Find(p, DOT);
    var hasDot := dot < |p|;
    var q := if hasDot then p[dot + 1..] else p;
    var semi := Find(q, SEMICOLON);
    var last := Clip(q[..semi], if hasDot then 3 else 9);
    var vers := if semi < |q| then Short(Atoi(q[semi + 1..])) else 0;
    if hasDot then Name(dir, Clip(p[..dot], 9), last, vers) else Name(dir, last, [], vers)
  }

  /** "[dir]", of which the first bracket has been read, and the rest. */
  function ParseBracket(p: seq<byte>): Parsed
  {
    var q := Find(p, RBRACKET);
    if q == |p| then Invalid else ParseRest(Clip(p[..q], 9), p[q + 1..])
  }

  /** parse_name */
  function Parse(str: seq<byte>): Parsed
  {
    if str != [] && str[0] == LBRACKET then ParseBracket(str[1..]) else ParseRest([], str)
  }

  /** "%d" of a positive number */
  function Decimal(n: nat): (s: seq<byte>)
    ensures |s| > 0 && forall i :: 0 <= i < |s| ==> IsDigit(s[i])
  {
    if n < 10 then [ZERO + n] else Decimal(n / 10) + [ZERO + n % 10]
  }

  lemma {:induction false} DigitsAppend(s: seq<byte>, c: byte, before: nat)
    requires IsDigit(c) && forall i :: 0 <= i < |s| ==> IsDigit(s[i])
    ensures Digits(s + [c], before) == 10 * Digits(s, before) + (c - 48)
  {
    if s == [] {
      assert [c][1..] == [];
    } else {
      assert (s + [c])[1..] == s[1..] + [c];
      DigitsAppend(s[1..], c, 10 * before + (s[0] - 48));
    }
  }

  lemma {:induction false} DecimalValue(n: nat)
    ensures Digits(Decimal(n), 0) == n && Atoi(Decimal(n)) == n
  {
    if n < 10 {
      assert Decimal(n)[1..] == [];
    } else {
      DecimalValue(n / 10);
      DigitsAppend(Decimal(n / 10), ZERO + n % 10, 0);
    }
  }

  /** What parse_name yields. */
  predicate Clean(r: Parsed)
    requires r.Name?
  {
    && |r.dir| <= 9 && |r.fname| <= 9 && |r.ext| <= 3
    && RBRACKET !in r.dir && DOT !in r.fname && SEMICOLON !in r.ext
  }

  /** A piece of a string, cut out and clipped. */
  lemma Piece(p: seq<byte>, i: nat, n: nat)
    requires i <= |p|
    ensures forall c :: c in Clip(p[..i], n) ==> c in p[..i] && c in p
    ensures forall c :: c in p[i..] ==> c in p
  {
  }

  lemma ParsedIsClean(str: seq<byte>)
    requires Parse(str).Name?
    ensures Clean(Parse(str)) && (IsString(str) ==> IsString(Parse(str).dir) && IsString(Parse(str).fname) && IsString(Parse(str).ext))
  {
    if str != [] && str[0] == LBRACKET {
      var p := str[1..];
      var q := Find(p, RBRACKET);
      Piece(p, q, 9);
      if q < |p| {
        Piece(p, q + 1, 9);
        RestIsClean(Clip(p[..q], 9), p[q + 1..]);
      }
      Piece(str, 1, 0);
    } else {
      RestIsClean([], str);
    }
  }

  lemma RestIsClean(dir: seq<byte>, p: seq<byte>)
    requires |dir| <= 9 && RBRACKET !in dir
    ensures var r := ParseRest(dir, p);
      Clean(r) && r.dir == dir && (forall c :: c in r.fname || c in r.ext ==> c in p)
  {
    var dot := Find(p, DOT);
    var q := if dot < |p| then p[dot + 1..] else p;
    var semi := Find(q, SEMICOLON);
    Piece(p, dot, 9);
    if dot < |p| { Piece(p, dot + 1, 0); }
    Piece(q, semi, if dot < |p| then 3 else 9);
    assert p[..|p|] == p;
  }

  lemma ParseParts(dir: seq<byte>, p: seq<byte>, fname: seq<byte>, q: seq<byte>, ext: seq<byte>, digits: seq<byte>)
    requires |fname| <= 9 && |ext| <= 3
    requires Find(p, DOT) == |fname| < |p| && p[..|fname|] == fname && p[|fname| + 1..] == q
    requires Find(q, SEMICOLON) == |ext| < |q| && q[..|ext|] == ext && q[|ext| + 1..] == digits
    ensures ParseRest(dir, p) == Name(dir, fname, ext, Short(Atoi(digits)))
  {
  }

  /** "%d" of any number */
  function Printed(n: int): (s: seq<byte>)
    ensures |s| > 0
  {
    if n < 0 then [MINUS] + Decimal(0 - n) else Decimal(n)
  }

  lemma PrintedValue(n: int)
    ensures Atoi(Printed(n)) == n
  {
    DecimalValue(if n < 0 then 0 - n else n);
    if n < 0 { assert Printed(n)[1..] == Decimal(0 - n); }
  }

  /** fname.ext;vers */
  function FullName(fname: seq<byte>, ext: seq<byte>, vers: int): seq<byte>
  {
    fname + [DOT] + (ext + [SEMICOLON] + Printed(vers))
  }

  lemma ParseFullName(dir: seq<byte>, fname: seq<byte>, ext: seq<byte>, vers: int)
    requires |fname| <= 9 && |ext| <= 3 && DOT !in fname && SEMICOLON !in ext && -0x8000 <= vers < 0x8000
    ensures ParseRest(dir, FullName(fname, ext, vers)) == Name(dir, fname, ext, vers)
  {
    var q := ext + [SEMICOLON] + Printed(vers);
    SplitIs(fname, q, DOT);
    SplitIs(ext, Printed(vers), SEMICOLON);
    PrintedValue(vers);
    ParseParts(dir, FullName(fname, ext, vers), fname, q, ext, Printed(vers));
  }

  /** newname of create_file. */
  function NewName(dir: seq<byte>, fname: seq<byte>, ext: seq<byte>, vers: int): seq<byte>
  {
    (if dir == [] then [] else [LBRACKET] + dir + [RBRACKET]) + FullName(fname, ext, vers)
  }

  /** The name does not start with a bracket of its own. */
  predicate Plain(dir: seq<byte>, fname: seq<byte>)
  {
    dir != [] || fname == [] || fname[0] != LBRACKET
  }

  /** The name under which create_file opens the new file means that file, with the directory and
      the version, if and only if it does not start with a bracket that belongs to the name. */
  lemma NewNameParses(r: Parsed, vers: int)
    requires r.Name? && Clean(r) && -0x8000 <= vers < 0x8000
    ensures Parse(NewName(r.dir, r.fname, r.ext, vers)) == r.(vers := vers) <==> Plain(r.dir, r.fname)
  {
    ParseFullName(r.dir, r.fname, r.ext, vers);
    if r.dir != [] {
      DirectoryName(r.dir, FullName(r.fname, r.ext, vers));
    } else {
      var s := FullName(r.fname, r.ext, vers);
      assert NewName([], r.fname, r.ext, vers) == s;
      if r.fname != [] && r.fname[0] == LBRACKET { BracketLost(r.fname, r.ext, vers); } else { PlainName(s); }
    }
  }

  /** What the forms of a name mean, each part cut off at its width: a name with or without an extension, with
      or without a version. */
  lemma NameForms(dir: seq<byte>, fname: seq<byte>, ext: seq<byte>, digits: seq<byte>)
    requires DOT !in fname && SEMICOLON !in ext
    ensures ParseRest(dir, fname + [DOT] + ext) == Name(dir, Clip(fname, 9), Clip(ext, 3), 0)
    ensures ParseRest(dir, fname + [DOT] + (ext + [SEMICOLON] + digits)) == Name(dir, Clip(fname, 9), Clip(ext, 3), Short(Atoi(digits)))
    ensures SEMICOLON !in fname ==> ParseRest(dir, fname) == Name(dir, Clip(fname, 9), [], 0)
    ensures SEMICOLON !in fname && DOT !in digits ==> ParseRest(dir, fname + [SEMICOLON] + digits) == Name(dir, Clip(fname, 9), [], Short(Atoi(digits)))
  {
    NotThere(ext, SEMICOLON);
    NotThere(fname, DOT);
    SplitIs(fname, ext, DOT);
    SplitIs(fname, ext + [SEMICOLON] + digits, DOT);
    SplitIs(ext, digits, SEMICOLON);
    if SEMICOLON !in fname { NotThere(fname, SEMICOLON); }
    if SEMICOLON !in fname && DOT !in digits {
      SplitIs(fname, digits, SEMICOLON);
      NotThere(fname + [SEMICOLON] + digits, DOT);
    }
  }

  lemma NotThere(s: seq<byte>, c: byte)
    requires c !in s
    ensures Find(s, c) == |s| && s[..|s|] == s
  {
  }

  /** The value of a version: white space and a sign may stand in front of its digits, and what is no number
      counts as 0. */
  lemma VersionForms(n: nat, s: seq<byte>, c: byte)
    ensures IsDigit(c) <==> c as char in "0123456789"
    ensures Atoi(Decimal(n)) == n && Atoi([MINUS] + Decimal(n)) == 0 - n && Atoi([PLUS] + Decimal(n)) == n
    ensures c == BLANK || 9 <= c <= 13 ==> Atoi([c] + s) == Atoi(s)
    ensures !(c == BLANK || 9 <= c <= 13 || c == MINUS || c == PLUS || IsDigit(c)) ==> Atoi([c] + s) == 0
  {
    DecimalValue(n);
    assert ([c] + s)[1..] == s;
    assert ([MINUS] + Decimal(n))[1..] == Decimal(n) == ([PLUS] + Decimal(n))[1..];
  }

  /** "[][X" names a file "[X" in the current directory; create_file then asks for "[X.;1", which
      is no file name. */
  lemma BracketExample()
    ensures Parse([LBRACKET, RBRACKET, LBRACKET, 88]) == Name([], [LBRACKET, 88], [], 0)
    ensures Parse(NewName([], [LBRACKET, 88], [], 1)) == Invalid
  {
    var name := [LBRACKET, 88];
    assert Find([RBRACKET, LBRACKET, 88], RBRACKET) == 0;
    assert [LBRACKET, RBRACKET, LBRACKET, 88][1..] == [RBRACKET] + name;
    assert RBRACKET !in name && DOT !in name && SEMICOLON !in name;
    assert Find(name, DOT) == 2 && Find(name, SEMICOLON) == 2 && name[..2] == name;
    var s := FullName(name, [], 1);
    assert s == [LBRACKET, 88, DOT, SEMICOLON, 49];
    assert Find(s[1..], RBRACKET) == |s[1..]|;
  }

  lemma PlainName(s: seq<byte>)
    requires s == [] || s[0] != LBRACKET
    ensures Parse(s) == ParseRest([], s)
  {
  }

  lemma {:induction false} BracketName(p: seq<byte>)
    ensures ParseBracket(p).Name? && ParseBracket(p).dir == [] ==> |p| > 0 && p[0] == RBRACKET && ParseBracket(p) == ParseRest([], p[1..])
  {
    var q := Find(p, RBRACKET);
    var d := Clip(p[..q], 9);
    assert d == [] <==> q == 0;
  }

  lemma DirectoryName(dir: seq<byte>, rest: seq<byte>)
    requires RBRACKET !in dir && |dir| <= 9
    ensures Parse([LBRACKET] + dir + [RBRACKET] + rest) == ParseRest(dir, rest)
  {
    var s := [LBRACKET] + dir + [RBRACKET] + rest;
    assert s[1..] == dir + [RBRACKET] + rest;
    SplitIs(dir, rest, RBRACKET);
  }

  /** A name that starts with a bracket is taken for a directory, or refused. */
  lemma BracketLost(fname: seq<byte>, ext: seq<byte>, vers: int)
    requires |fname| <= 9 && |ext| <= 3 && DOT !in fname && SEMICOLON !in ext && -0x8000 <= vers < 0x8000
    requires fname != [] && fname[0] == LBRACKET
    ensures var r := Parse(FullName(fname, ext, vers)); r.Invalid? || r.dir != [] || r.fname != fname
  {
    var s := FullName(fname, ext, vers);
    BracketName(s[1..]);
    assert |fname| == 1 ==> s[1] == DOT;
    if |fname| > 1 {
      DropTwo(fname, ext, vers);
      ParseFullName([], fname[2..], ext, vers);
      assert s[1..][1..] == s[2..];
    }
  }

  lemma DropTwo(fname: seq<byte>, ext: seq<byte>, vers: int)
    requires |fname| > 1
    ensures FullName(fname, ext, vers)[2..] == FullName(fname[2..], ext, vers)
  {
  }
}
