/** get_xy of calc.c: reading a reference, and moving it in place inside the formula buffer. */
module CellEdit {
  import opened Bytes
  import opened References

  ghost predicate EditKey(k: int)
  {
    true
  }

  /** Behind position n the buffer is as it was, up to position alen cleared. */
  ghost predicate ClearedFrom(was: seq<byte>, now: seq<byte>, n: nat, alen: nat)
  {
    forall j: nat :: n <= j < |was| && j < |now| ==> now[j] == if j <= alen then 0 else was[j]
  }

  /** What followed position ip now follows position start, and what became free is cleared. */
  ghost predicate GapClosed(was: seq<byte>, now: seq<byte>, start: nat, ip: nat, alen: nat)
  {
    && |was| == |now| == FORM_SIZE
    && forall key {:trigger EditKey(key)} :: Folded(key) ==>
    && (forall j: nat :: j < start && j < FORM_SIZE ==> now[j] == was[j])
    && (forall j: nat :: start <= j < start + alen - ip && j < FORM_SIZE && j + ip - start < FORM_SIZE && start <= ip ==> now[j] == was[j + ip - start])
    && (start <= ip <= start + alen ==> ClearedFrom(was, now, start + alen - ip + 1, alen))
  }

  /** The n characters at start have moved up by len. */
  ghost predicate GapOpened(was: seq<byte>, now: seq<byte>, start: nat, n: nat, len: nat)
  {
    && |was| == |now| == FORM_SIZE
    && forall key {:trigger EditKey(key)} :: Folded(key) ==>
    && (forall j: nat :: j < start && j < FORM_SIZE ==> now[j] == was[j])
    && (forall j: nat :: start + len <= j < start + len + n && j < FORM_SIZE ==> now[j] == was[j - len])
    && (forall j: nat :: start + len + n <= j < FORM_SIZE ==> now[j] == was[j])
  }

  /** name stands at start, up to position i; all else is as it was. */
  ghost predicate Holds(was: seq<byte>, now: seq<byte>, start: nat, i: nat, name: seq<byte>)
  {
    && |was| == |now| && start <= i <= |now| && |name| == i - start
    && forall key {:trigger EditKey(key)} :: Folded(key) ==>
    && now[start..i] == name && now[..start] == was[..start] && now[i..] == was[i..]
  }

  lemma HoldsMore(was: seq<byte>, now: seq<byte>, start: nat, i: nat, name: seq<byte>, b: byte)
    requires Holds(was, now, start, i, name) && i < |now|
    ensures Holds(was, now[i := b], start, i + 1, name + [b])
  {
    assert EditKey(0);
    var put := now[i := b];
    assert put[start..i + 1] == now[start..i] + [b];
    assert put[i + 1..] == now[i..][1..] && was[i..][1..] == was[i + 1..];
    assert put[..start] == now[..start];
  }

  /** struct wcell: a formula in a buffer of 70 characters; alen counts the trailing null. */
  class Cell {
    const form: array<byte>
    var alen: nat

    constructor (form: array<byte>, alen: nat)
      ensures this.form == form && this.alen == alen
    {
      this.form, this.alen := form, alen;
    }

    ghost predicate Valid()
      reads this, form
    {
      form.Length == FORM_SIZE && 0 < alen < FORM_SIZE && form[alen - 1] == 0
    }

    ghost function Text(): seq<byte>
      requires form.Length == FORM_SIZE && alen < FORM_SIZE
      reads this, form
    {
      form[..alen]
    }

    // -------------------------------------------------------------
    // Parsing
    // -------------------------------------------------------------

    /** Column letters from position start on. */
    method ScanLetters(start: nat) returns (ip: nat, value: int)
      requires Valid() && start < alen
      ensures start <= ip < alen && LettersTo(Text(), start, ip, value)
    {
      ip, value := start, 0;
      LettersStart(Text(), start);
      while IsLetter(form[ip])
        invariant start <= ip < alen && LettersAt(Text(), start, ip, value)
        decreases alen - ip
      {
        LettersNext(Text(), start, ip, value);
        value := Short(value * 26 + form[ip] - 65 + 1);
        ip := ip + 1;
      }
      LettersNext(Text(), start, ip, value);
    }

    /** Row digits from position start on. */
    method ScanDigits(start: nat) returns (ip: nat, value: int)
      requires Valid() && start < alen
      ensures start <= ip < alen && DigitsTo(Text(), start, ip, value)
    {
      ip, value := start, 0;
      DigitsStart(Text(), start);
      while IsDigit(form[ip])
        invariant start <= ip < alen && DigitsAt(Text(), start, ip, value)
        decreases alen - ip
      {
        DigitsNext(Text(), start, ip, value);
        value := Short(value * 10 + form[ip] - 48);
        ip := ip + 1;
      }
      DigitsNext(Text(), start, ip, value);
    }

    /** The reference at position start. */
    method ReadReference(start: nat) returns (ip: nat, q: Ref)
      requires Valid() && start < alen
      ensures start <= ip < alen && q.length == ip - start && RefIs(Text(), start, q)
      ensures Short(q.row) == q.row && Short(q.col) == q.col
    {
      var absRow, absCol, row, col := false, false, 0, 0;
      ip := start;
      if form[ip] == DOLLAR {
        absCol := true;
        ip := ip + 1;
      }
      ghost var i1 := ip;
      ip, col := ScanLetters(ip);
      ghost var i2, v := ip, col;
      col := Short(col - 1);
      if form[ip] == DOLLAR {
        absRow := true;
        ip := ip + 1;
      }
      ip, row := ScanDigits(ip);
      RowFrom(Text(), i2, absRow, ip, row);
      row := Short(row - 1);
      ColFrom(Text(), i1, i2, v, Ref(ip - i2, row, 0, absRow, false));
      q := Ref(ip - start, row, col, absRow, absCol);
      RefFrom(Text(), start, absCol, Ref(ip - i1, row, col, absRow, false));
    }

    // -------------------------------------------------------------
    // Moving text inside the buffer
    // -------------------------------------------------------------

    /** Move everything from ip on down to start, and clear what becomes free at the end. */
    method CloseGap(start: nat, ip: nat)
      requires form.Length == FORM_SIZE && start < ip < alen < FORM_SIZE
      modifies form
      ensures GapClosed(old(form[..]), form[..], start, ip, alen)
    {
      ghost var was := form[..];
      MoveDown(start, ip);
      ghost var moved := form[..];
      ClearEnd(start, ip);
      Closed(was, moved, form[..], start, ip, alen);
    }

    method MoveDown(start: nat, ip: nat)
      requires form.Length == FORM_SIZE && start < ip < alen < FORM_SIZE
      modifies form
      ensures forall j: nat :: j < start ==> form[j] == old(form[j])
      ensures forall j: nat :: start <= j < start + alen + 1 - ip ==> form[j] == old(form[j + (ip - start)])
      ensures forall j: nat :: start + alen + 1 - ip <= j < FORM_SIZE ==> form[j] == old(form[j])
    {
      ghost var gap := ip - start;
      var i := ip;
      while i <= alen
        invariant ip <= i <= alen + 1
        invariant forall j: nat :: j < start || i - gap <= j < FORM_SIZE ==> form[j] == old(form[j])
        invariant forall j: nat :: start <= j < i - gap ==> form[j] == old(form[j + gap])
      {
        form[i - ip + start] := form[i];
        i := i + 1;
      }
    }

    method ClearEnd(start: nat, ip: nat)
      requires form.Length == FORM_SIZE && start < ip < alen < FORM_SIZE
      modifies form
      ensures forall j: nat :: j <= start + alen - ip ==> form[j] == old(form[j])
      ensures ClearedFrom(old(form[..]), form[..], start + alen - ip + 1, alen)
    {
      ghost var was := form[..];
      var i := start;
      while i < ip
        invariant start <= i <= ip
        invariant forall j: nat :: j < FORM_SIZE ==> form[j] == if alen + start - i < j <= alen then 0 else was[j]
      {
        form[alen + start - i] := 0;
        i := i + 1;
      }
    }

    /** Move the alen - ip characters at start up by len, from the last one on. */
    method OpenGap(start: nat, ip: nat, len: nat)
      requires form.Length == FORM_SIZE && start < ip < alen < FORM_SIZE && alen + len - (ip - start) < FORM_SIZE && len > 0
      modifies form
      ensures GapOpened(old(form[..]), form[..], start, alen - ip, len)
    {
      ghost var was := form[..];
      var i: int := alen - 1;
      while i >= ip
        invariant ip - 1 <= i < alen
        invariant forall j: nat :: j <= i - ip + start + len && j < FORM_SIZE ==> form[j] == was[j]
        invariant forall j: nat :: i - ip + start + len < j < start + len + alen - ip ==> form[j] == was[j - len]
        invariant forall j: nat :: start + len + alen - ip <= j < FORM_SIZE ==> form[j] == was[j]
      {
        form[i - ip + start + len] := form[i - ip + start];
        i := i - 1;
      }
    }

    /** form[i++] = b */
    method Put(i: nat, b: byte, ghost start: nat, ghost was: seq<byte>, ghost name: seq<byte>) returns (i': nat)
      requires i < form.Length && Holds(was, form[..], start, i, name)
      modifies form
      ensures i' == i + 1 && Holds(was, form[..], start, i', name + [b])
    {
      HoldsMore(was, form[..], start, i, name, b);
      form[i] := b;
      i' := i + 1;
    }

    /** The canonical name of a cell, from start on. */
    method PutName(start: nat, r: nat, c: nat, absRow: bool, absCol: bool) returns (ghost name: seq<byte>)
      requires r <= 255 && c <= 255 && start + NameLength(r, c, absRow, absCol) <= form.Length
      modifies form
      ensures NameIs(r, c, absRow, absCol, name) && Holds(old(form[..]), form[..], start, start + NameLength(r, c, absRow, absCol), name)
    {
      ghost var was := form[..];
      name := Sign(absCol);
      var i := start;
      if absCol { i := Put(i, DOLLAR, start, was, []); }
      assert [] + [DOLLAR] == [DOLLAR];
      i := PutColumn(i, c, start, was, name);
      name := name + ColName(c);
      if absRow { i := Put(i, DOLLAR, start, was, name); }
      assert name + [] == name;
      name := name + Sign(absRow);
      PutRow(i, r, start, was, name);
      name := name + RowName(r);
      assert name == Name(r, c, absRow, absCol);
    }

    method PutColumn(i: nat, c: nat, ghost start: nat, ghost was: seq<byte>, ghost name: seq<byte>) returns (i': nat)
      requires c <= 255 && i + |ColName(c)| <= form.Length && Holds(was, form[..], start, i, name)
      modifies form
      ensures i' == i + |ColName(c)| && Holds(was, form[..], start, i', name + ColName(c))
    {
      i' := i;
      ghost var done := name;
      var k := c / 26;
      if k > 0 {
        i' := Put(i', k - 1 + 65, start, was, done);
        done := done + [64 + k];
      }
      k := c % 26;
      i' := Put(i', k + 65, start, was, done);
      assert done + [65 + k] == name + ColName(c);
    }

    method PutRow(i: nat, r: nat, ghost start: nat, ghost was: seq<byte>, ghost name: seq<byte>)
      requires r <= 255 && i + |RowName(r)| <= form.Length && Holds(was, form[..], start, i, name)
      modifies form
      ensures Holds(was, form[..], start, i + |RowName(r)|, name + RowName(r))
    {
      var i' := i;
      ghost var done := name;
      var n := r + 1;
      var k := n / 100;
      if k > 0 {
        i' := Put(i', k + 48, start, was, done);
        done := done + [48 + k];
      }
      k := n % 100 / 10;
      if n > 9 {
        i' := Put(i', k + 48, start, was, done);
        done := done + [48 + k];
      }
      k := n % 10;
      i' := Put(i', k + 48, start, was, done);
      assert done + [48 + k] == name + RowName(r);
    }

    /** The three moves together: the len characters of the new name take the place of
        form[start..ip]. */
    method Replace(start: nat, ip: nat, len: nat, r: nat, c: nat, absRow: bool, absCol: bool) returns (ghost name: seq<byte>)
      requires Valid() && start < ip < alen && r <= 255 && c <= 255
      requires len == NameLength(r, c, absRow, absCol) && alen + len - (ip - start) < FORM_SIZE
      modifies this, form
      ensures Valid() && NameIs(r, c, absRow, absCol, name) && Text() == old(Text())[..start] + name + old(Text())[ip..]
      ensures ClearedFrom(old(form[..]), form[..], alen, old(alen))
    {
      ghost var was := form[..];
      CloseGap(start, ip);
      ghost var closed := form[..];
      OpenGap(start, ip, len);
      ghost var widened := form[..];
      name := PutName(start, r, c, absRow, absCol);
      alen := alen + len - ip + start;
      Replaced(was, closed, widened, form[..], start, ip, len, old(alen), name);
    }

    /** A coordinate of the new reference, in 16 bits. */
    method Moved(x: int, del: int, abs: bool) returns (r: int)
      requires Short(x) == x && -256 < del < 256
      ensures r == Short(if abs then x else x + del)
      ensures 0 <= r <= 255 ==> r == if abs then x else x + del
      ensures 0 <= (if abs then x else x + del) <= 255 ==> r == if abs then x else x + del
    {
      r := Short(x + del);
      if abs { r := x; }
    }

    /** The length of the new reference. */
    method LengthOf(r: int, c: int, absRow: bool, absCol: bool) returns (len: nat)
      ensures len == NameLength(r, c, absRow, absCol)
    {
      len := if r < 9 then 1 else if r < 99 then 2 else 3;
      if c < 26 { len := len + 1; } else { len := len + 2; }
      len := len + (if absRow then 1 else 0) + if absCol then 1 else 0;
    }

    /** The part of get_xy that is compiled in for editing: q is the reference just read. */
    method MoveReference(start: nat, ip0: nat, q: Ref, e: Edit) returns (ip: nat)
      requires Valid() && start <= ip0 < alen && q.length == ip0 - start && Short(q.row) == q.row && Short(q.col) == q.col && -256 < e.delRow < 256 && -256 < e.delCol < 256
      modifies this, form
      ensures Valid()
      ensures if Moves(q, old(alen), e) then
          ip == start + NameLength(NewRow(q, e), NewCol(q, e), q.absRow, q.absCol)
          && Text() == old(Text())[..start] + Name(NewRow(q, e), NewCol(q, e), q.absRow, q.absCol) + old(Text())[ip0..]
        else
          ip == ip0 && Text() == old(Text())
      ensures if Moves(q, old(alen), e) then ClearedFrom(old(form[..]), form[..], alen, old(alen)) else form[..] == old(form[..])
    {
      ip := ip0;
      if q.row >= e.testRow && q.col >= e.testCol {
        var r := Moved(q.row, e.delRow, q.absRow);
        var c := Moved(q.col, e.delCol, q.absCol);
        var len := LengthOf(r, c, q.absRow, q.absCol);
        if alen + len - ip + start < 70 && ip <= alen && ip > start && 0 <= r <= 255 && 0 <= c <= 255 {
          ghost var name := Replace(start, ip, len, r, c, q.absRow, q.absCol);
          assert name == Name(r, c, q.absRow, q.absCol) by { assert ScanKey(0); }
          ip := start + len;
        }
      }
    }

    /** get_xy: the coordinates of the reference that stands at "start" are reported.  The text is rewritten
        exactly when the guards hold, and the position is behind the reference, old or new; what the old text
        took of the buffer beyond the new one is cleared. */
    method GetXY(start: nat, localEdit: bool, e: Edit) returns (ip: nat, row: int, col: int)
      requires Valid() && start < alen && -256 < e.delRow < 256 && -256 < e.delCol < 256
      modifies this, form
      ensures Valid() && row == RefAt(old(Text()), start).row && col == RefAt(old(Text()), start).col
      ensures Text() == if localEdit && Applies(old(Text()), start, e) then Rewritten(old(Text()), start, e) else old(Text())
      ensures if localEdit && Applies(old(Text()), start, e) then ClearedFrom(old(form[..]), form[..], alen, old(alen)) else form[..] == old(form[..])
      ensures start <= |Text()| && ip == start + RefAt(Text(), start).length
      ensures localEdit && Applies(old(Text()), start, e) ==> RefFollows(RefAt(old(Text()), start), e, RefAt(Text(), start))
    {
      ghost var was := Text();
      var q;
      ip, q := ReadReference(start);
      row, col := q.row, q.col;
      RewriteOf(was, start, q, e);
      if localEdit { ip := MoveReference(start, ip, q, e); }
      if localEdit && Applies(was, start, e) { RewrittenParses(was, start, e); DollarsStay(was, start, e); }
    }
  }

  lemma Closed(was: seq<byte>, moved: seq<byte>, now: seq<byte>, start: nat, ip: nat, alen: nat)
    requires |was| == |moved| == |now| == FORM_SIZE && start < ip < alen < FORM_SIZE
    requires forall j: nat :: j < start || start + alen + 1 - ip <= j < FORM_SIZE ==> moved[j] == was[j]
    requires forall j: nat :: start <= j < start + alen + 1 - ip ==> moved[j] == was[j + (ip - start)]
    requires (forall j: nat :: j <= start + alen - ip ==> now[j] == moved[j]) && ClearedFrom(moved, now, start + alen - ip + 1, alen)
    ensures GapClosed(was, now, start, ip, alen)
  {
    forall j: nat | start <= j < start + alen - ip && j < FORM_SIZE && j + ip - start < FORM_SIZE ensures now[j] == was[j + ip - start] {
      assert now[j] == moved[j];
    }
    assert ClearedFrom(was, now, start + alen - ip + 1, alen);
  }

  lemma RestReplaced(was: seq<byte>, closed: seq<byte>, widened: seq<byte>, now: seq<byte>, start: nat, ip: nat, len: nat, alen: nat, name: seq<byte>)
    requires |was| == |closed| == |widened| == |now| == FORM_SIZE && start < ip < alen < FORM_SIZE && len == |name| && len > 0
    requires alen + len - (ip - start) < FORM_SIZE
    requires GapClosed(was, closed, start, ip, alen) && GapOpened(closed, widened, start, alen - ip, len) && Holds(widened, now, start, start + len, name)
    ensures ClearedFrom(was, now, alen + len - ip + start, alen)
  {
    var n := alen + len - ip + start;
    assert now[start + len..] == widened[start + len..] by { assert EditKey(0); }
    assert forall j: nat :: n <= j < FORM_SIZE ==> widened[j] == closed[j] by { assert EditKey(0); }
    assert ClearedFrom(was, closed, start + alen - ip + 1, alen) by { assert EditKey(0); }
    forall j: nat | n <= j < FORM_SIZE ensures now[j] == closed[j] {
      assert now[j] == now[start + len..][j - start - len] == widened[start + len..][j - start - len];
    }
  }

  lemma Replaced(was: seq<byte>, closed: seq<byte>, widened: seq<byte>, now: seq<byte>, start: nat, ip: nat, len: nat, alen: nat, name: seq<byte>)
    requires |was| == |closed| == |widened| == |now| == FORM_SIZE && start < ip < alen < FORM_SIZE && len == |name| && len > 0
    requires alen + len - (ip - start) < FORM_SIZE
    requires GapClosed(was, closed, start, ip, alen) && GapOpened(closed, widened, start, alen - ip, len) && Holds(widened, now, start, start + len, name)
    ensures now[..alen + len - ip + start] == was[..alen][..start] + name + was[..alen][ip..]
    ensures now[alen + len - ip + start - 1] == was[alen - 1] && ClearedFrom(was, now, alen + len - ip + start, alen)
  {
    assert EditKey(0);
    var n := alen + len - ip + start;
    var r := was[..alen][..start] + name + was[..alen][ip..];
    forall j: nat | j < n ensures now[j] == r[j] {
      if j < start {
        assert now[j] == now[..start][j];
      } else if j < start + len {
        assert now[j] == name[j - start];
      } else {
        assert now[j] == now[start + len..][j - start - len];
      }
    }
    assert now[..n] == r;
    RestReplaced(was, closed, widened, now, start, ip, len, alen, name);
    assert now[n - 1] == widened[n - 1] == closed[n - 1 - len] == was[alen - 1];
  }
}
