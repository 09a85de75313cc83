/** Writers that fill a fixed buffer and silently stop when it is full: put_ch and its
    callers in user/libc/ulib.c, and sys_ps in kernel/syscall/syscall.c. Each is tied to
    the ideal text it stands for, cut off at the capacity. */
module Writers {
  import opened Tasks
  import opened Text

  function Clip(s: string, cap: nat): (r: string)
    ensures r <= s && |r| == if |s| <= cap then |s| else cap
  {
    if |s| <= cap then s else s[..cap]
  }

  /** Appending to clipped text and clipping again loses nothing more. */
  lemma ClipAppend(a: string, b: string, cap: nat)
    ensures Clip(Clip(a, cap) + b, cap) == Clip(a + b, cap)
  {
  }

  /** The text as the bytes that end up in memory. */
  function Bytes(s: string): (b: seq<Byte>)
    ensures |b| == |s|
  {
    seq(|s|, i requires 0 <= i < |s| => s[i] as int % 256)
  }

  // ------------------------------------------------------------------- ulib.c

  // In these methods `text` is everything the caller wanted in the buffer so far.

  method PutCh(buf: array<char>, n: nat, cap: nat, c: char, ghost text: string) returns (n': nat)
    requires n <= cap <= buf.Length && buf[..n] == Clip(text, cap)
    modifies buf
    ensures n' <= cap && buf[..n'] == Clip(text + [c], cap)
  {
    n' := n;
    if n < cap {
      buf[n] := c;
      n' := n + 1;
      assert buf[..n] == text;
    }
  }

  method PutText(buf: array<char>, n: nat, cap: nat, s: string, ghost text: string) returns (n': nat)
    requires n <= cap <= buf.Length && buf[..n] == Clip(text, cap)
    modifies buf
    ensures n' <= cap && buf[..n'] == Clip(text + s, cap)
  {
    n' := n;
    assert text + s[..0] == text;
    for i := 0 to |s|
      invariant n' <= cap && buf[..n'] == Clip(text + s[..i], cap)
    {
      n' := PutCh(buf, n', cap, s[i], text + s[..i]);
      assert text + s[..i] + [s[i]] == text + s[..i + 1];
    }
    assert s[..|s|] == s;
  }

  function StrText(s: Option<string>): string {
    if s.None? then "(null)" else s.value
  }

  method PutStr(buf: array<char>, n: nat, cap: nat, s: Option<string>, ghost text: string) returns (n': nat)
    requires n <= cap <= buf.Length && buf[..n] == Clip(text, cap)
    modifies buf
    ensures n' <= cap && buf[..n'] == Clip(text + StrText(s), cap)
  {
    n' := PutText(buf, n, cap, if s.None? then "(null)" else s.value, text);
  }

  /** What is left to emit while put_dec peels digits off v. */
  function Rest(v: nat): string {
    if v == 0 then [] else Dec(v)
  }

  /** The digits of v in a 10-byte scratch buffer, lowest first. */
  method PeelDigits(v: Word) returns (tmp: array<char>, i: nat)
    requires v > 0
    ensures fresh(tmp) && tmp.Length == 10 && i == |Dec(v)| <= 10
    ensures forall j :: 0 <= j < i ==> tmp[j] == Dec(v)[i - 1 - j]
  {
    WordHasTenDigits(v);
    tmp := new char[10];
    i := 0;
    var w := v;
    while w > 0
      invariant 0 <= w && i + |Rest(w)| == |Dec(v)|
      invariant Rest(w) == Dec(v)[..|Dec(v)| - i]
      invariant forall j :: 0 <= j < i ==> tmp[j] == Dec(v)[|Dec(v)| - 1 - j]
    {
      PeelOne(w);
      tmp[i] := Digit(w % 10);
      w := w / 10;
      i := i + 1;
    }
  }

  lemma PeelOne(w: nat)
    requires w > 0
    ensures Rest(w) == Rest(w / 10) + [Digit(w % 10)]
  {
  }

  /** put_dec: the digits come out of the scratch buffer backwards. */
  method PutDec(buf: array<char>, n: nat, cap: nat, v: Word, ghost text: string) returns (n': nat)
    requires n <= cap <= buf.Length && buf[..n] == Clip(text, cap)
    modifies buf
    ensures n' <= cap && buf[..n'] == Clip(text + Dec(v), cap)
  {
    if v == 0 {
      n' := PutCh(buf, n, cap, '0', text);
      assert Dec(v) == ['0'];
      return;
    }
    ghost var digits := Dec(v);
    var tmp, i := PeelDigits(v);
    n' := n;
    ghost var total := i;
    assert text + digits[..0] == text;
    while i > 0
      invariant 0 <= i <= total == |digits|
      invariant n' <= cap && buf[..n'] == Clip(text + digits[..total - i], cap)
      invariant forall j :: 0 <= j < total ==> tmp[j] == digits[total - 1 - j]
    {
      i := i - 1;
      ghost var k := total - 1 - i;
      n' := PutCh(buf, n', cap, tmp[i], text + digits[..k]);
      assert text + digits[..k] + [digits[k]] == text + digits[..k + 1];
    }
    assert digits[..total] == digits;
  }

  /** What put_hex has still to emit from digit i on. */
  function HexLeft(v: Word, i: nat, pad8: bool, started: bool): string
    requires i <= 8
  {
    var rest := HexPadded(v, 8)[i..];
    if pad8 || started then rest else Trim(rest)
  }

  lemma HexLeftStep(v: Word, i: nat, pad8: bool, started: bool)
    requires i < 8
    ensures var d := Nibble(v, 7 - i);
            HexLeft(v, i, pad8, started) ==
              if pad8 || d != 0 || started || i == 7 then [HexDigit(d)] + HexLeft(v, i + 1, pad8, true)
              else HexLeft(v, i + 1, pad8, started)
  {
    DigitIsNibble(v, 8, i);
    var digits := HexPadded(v, 8);
    assert digits[i..] == [digits[i]] + digits[i + 1..];
    TrimFront(digits[i], digits[i + 1..]);
  }

  lemma TrimFront(c: char, s: string)
    ensures Trim([c] + s) == if c == '0' && s != [] then Trim(s) else [c] + s
  {
    assert ([c] + s)[1..] == s;
  }

  lemma HexLeftEnds(v: Word, pad8: bool, started: bool)
    ensures HexLeft(v, 0, pad8, false) == Hex(v, pad8)
    ensures HexLeft(v, 8, pad8, started) == []
  {
    assert HexPadded(v, 8)[0..] == HexPadded(v, 8);
  }

  lemma Regroup(a: string, b: string, c: string)
    ensures a + b + c == a + (b + c)
  {
  }

  /** put_hex: eight nibbles from the top, leading zeros skipped unless pad8. */
  method PutHex(buf: array<char>, n: nat, cap: nat, v: Word, pad8: bool, ghost text: string) returns (n': nat)
    requires n <= cap <= buf.Length && buf[..n] == Clip(text, cap)
    modifies buf
    ensures n' <= cap && buf[..n'] == Clip(text + Hex(v, pad8), cap)
  {
    n' := n;
    ghost var out := "";
    var started := false;
    assert text + out == text;
    for i := 0 to 8
      invariant n' <= cap && buf[..n'] == Clip(text + out, cap)
      invariant out + HexLeft(v, i, pad8, started) == HexLeft(v, 0, pad8, false)
    {
      var nib := Nibble(v, 7 - i);
      HexLeftStep(v, i, pad8, started);
      if pad8 || nib != 0 || started || i == 7 {
        n' := PutCh(buf, n', cap, HexDigit(nib), text + out);
        Regroup(text, out, [HexDigit(nib)]);
        Regroup(out, [HexDigit(nib)], HexLeft(v, i + 1, pad8, true));
        out := out + [HexDigit(nib)];
        started := true;
      }
    }
    HexLeftEnds(v, pad8, started);
  }

  // -------------------------------------------------------------- ulib_printf

  const ULIB_LINE_MAX := 192

  datatype Arg = Num(v: Word) | Str(s: Option<string>) | Chr(c: char)

  /** The arguments a conversion letter takes. */
  predicate Takes(c: char) {
    c in "uxpsc"
  }

  predicate Fits(c: char, a: Arg) {
    match a case Num(_) => c in "uxp" case Str(_) => c == 's' case Chr(_) => c == 'c'
  }

  /** The caller's side of the varargs contract: one argument of the right kind for
      every conversion that takes one. */
  predicate Matches(fmt: string, args: seq<Arg>) {
    if fmt == [] then true
    else if fmt[0] != '%' then Matches(fmt[1..], args)
    else if |fmt| == 1 then true
    else if Takes(fmt[1]) then args != [] && Fits(fmt[1], args[0]) && Matches(fmt[2..], args[1..])
    else Matches(fmt[2..], args)
  }

  function Converted(c: char, a: Arg): string
    requires Fits(c, a)
  {
    match a
    case Num(v) => if c == 'u' then Dec(v) else if c == 'x' then Hex(v, false) else "0x" + Hex(v, true)
    case Str(s) => StrText(s)
    case Chr(ch) => [ch]
  }

  /** The whole text, were the line unlimited. A lone '%' at the end is dropped, an
      unknown conversion is copied. */
  function Ideal(fmt: string, args: seq<Arg>): string
    requires Matches(fmt, args)
  {
    if fmt == [] then []
    else if fmt[0] != '%' then [fmt[0]] + Ideal(fmt[1..], args)
    else if |fmt| == 1 then []
    else if Takes(fmt[1]) then Converted(fmt[1], args[0]) + Ideal(fmt[2..], args[1..])
    else if fmt[1] == '%' then ['%'] + Ideal(fmt[2..], args)
    else ['%', fmt[1]] + Ideal(fmt[2..], args)
  }

  /** What each conversion prints, read back: %u a decimal number, %x a hexadecimal one
      without leading zeros, %p "0x" and eight hexadecimal digits, %s the string and %c the
      character. */
  lemma ConversionsRead(c: char, a: Arg)
    requires Fits(c, a)
    ensures c == 'u' ==> var s := Converted(c, a);
              (forall i :: 0 <= i < |s| ==> IsDigit(s[i])) && Value(s) == a.v && (|s| > 1 ==> s[0] != '0')
    ensures c == 'x' ==> var s := Converted(c, a); HexValue(s) == a.v && (|s| > 1 ==> s[0] != '0')
    ensures c == 'p' ==> var s := Converted(c, a); |s| == 10 && s[..2] == "0x" && HexValue(s[2..]) == a.v
    ensures c == 's' ==> Converted(c, a) == if a.s.None? then "(null)" else a.s.value
    ensures c == 'c' ==> Converted(c, a) == [a.c]
  {
    if a.Num? {
      ValueOfDec(a.v);
      DecHasNoLeadingZero(a.v);
      HexRoundTrip(a.v, false);
      HexRoundTrip(a.v, true);
      assert ("0x" + Hex(a.v, true))[2..] == Hex(a.v, true);
    }
  }

  /** Text without conversions is printed as it stands. */
  lemma {:induction false} PlainText(fmt: string)
    requires forall i :: 0 <= i < |fmt| ==> fmt[i] != '%'
    ensures Matches(fmt, []) && Ideal(fmt, []) == fmt
  {
    if fmt != [] {
      PlainText(fmt[1..]);
    }
  }

  /** Plain text in front is copied; a doubled percent sign is one, an unknown conversion
      stays as it is, a known one takes the next argument. */
  lemma {:induction false} AfterPlainText(plain: string, fmt: string, args: seq<Arg>)
    requires (forall i :: 0 <= i < |plain| ==> plain[i] != '%') && Matches(fmt, args)
    ensures Matches(plain + fmt, args) && Ideal(plain + fmt, args) == plain + Ideal(fmt, args)
  {
    if plain == [] {
      assert plain + fmt == fmt;
    } else {
      assert (plain + fmt)[1..] == plain[1..] + fmt;
      AfterPlainText(plain[1..], fmt, args);
    }
  }

  lemma AfterPercent(c: char, fmt: string, args: seq<Arg>)
    requires Matches(['%', c] + fmt, args)
    ensures c == '%' ==> Matches(fmt, args) && Ideal(['%', c] + fmt, args) == "%" + Ideal(fmt, args)
    ensures c !in "%uxpsc" ==> Matches(fmt, args) && Ideal(['%', c] + fmt, args) == ['%', c] + Ideal(fmt, args)
    ensures c in "uxpsc" ==> args != [] && Fits(c, args[0]) && Matches(fmt, args[1..])
                             && Ideal(['%', c] + fmt, args) == Converted(c, args[0]) + Ideal(fmt, args[1..])
  {
    assert (['%', c] + fmt)[2..] == fmt;
  }

  method PutConverted(buf: array<char>, n: nat, cap: nat, c: char, a: Arg, ghost text: string) returns (n': nat)
    requires n <= cap <= buf.Length && Fits(c, a) && buf[..n] == Clip(text, cap)
    modifies buf
    ensures n' <= cap && buf[..n'] == Clip(text + Converted(c, a), cap)
  {
    match a {
      case Num(v) =>
        if c == 'u' {
          n' := PutDec(buf, n, cap, v, text);
        } else if c == 'x' {
          n' := PutHex(buf, n, cap, v, false, text);
        } else {
          n' := PutText(buf, n, cap, "0x", text);
          n' := PutHex(buf, n', cap, v, true, text + "0x");
          assert text + "0x" + Hex(v, true) == text + ("0x" + Hex(v, true));
        }
      case Str(s) => n' := PutStr(buf, n, cap, s, text);
      case Chr(ch) => n' := PutCh(buf, n, cap, ch, text);
    }
  }

  /** ulib_printf: one sys_write of exactly the first 192 characters of the text. */
  method UlibPrintf(fmt: string, args: seq<Arg>) returns (line: string)
    requires Matches(fmt, args)
    ensures line == Clip(Ideal(fmt, args), 192)
  {
    var buf := new char[ULIB_LINE_MAX];
    var n, p, k := 0, 0, 0;
    ghost var text := "";
    while p < |fmt|
      invariant 0 <= p <= |fmt| && 0 <= k <= |args| && 0 <= n <= ULIB_LINE_MAX
      invariant Matches(fmt[p..], args[k..]) && text + Ideal(fmt[p..], args[k..]) == Ideal(fmt, args)
      invariant buf[..n] == Clip(text, ULIB_LINE_MAX)
    {
      ghost var f, a, piece := fmt[p..], args[k..], "";
      assert f[1..] == fmt[p + 1..];
      if fmt[p] != '%' {
        piece := [fmt[p]];
        n := PutCh(buf, n, ULIB_LINE_MAX, fmt[p], text);
        p := p + 1;
      } else if p + 1 == |fmt| {
        assert text + piece == text;
        p := p + 1;
      } else {
        var c := fmt[p + 1];
        assert f[2..] == fmt[p + 2..];
        if Takes(c) {
          assert a[1..] == args[k + 1..];
          piece := Converted(c, args[k]);
          n := PutConverted(buf, n, ULIB_LINE_MAX, c, args[k], text);
          k := k + 1;
        } else if c == '%' {
          piece := "%";
          n := PutCh(buf, n, ULIB_LINE_MAX, '%', text);
        } else {
          piece := ['%', c];
          n := PutText(buf, n, ULIB_LINE_MAX, ['%', c], text);
        }
        p := p + 2;
      }
      assert Ideal(f, a) == piece + Ideal(fmt[p..], args[k..]);
      Regroup(text, piece, Ideal(fmt[p..], args[k..]));
      text := text + piece;
    }
    line := buf[..n];
  }

  // -------------------------------------------------------------------- sys_ps

  const PS_NAME_W := 7

  function StateName(s: TaskState): string {
    match s
    case Ready => "READY  "
    case Running => "RUNNING"
    case Blocked => "BLOCKED"
    case Dead => "DEAD   "
  }

  datatype Row = Row(name: Option<string>, index: nat, state: TaskState)

  function NameText(name: Option<string>): string {
    if name.None? then "?" else name.value
  }

  function Spaces(n: int): string {
    if n <= 0 then [] else seq(n, _ => ' ')
  }

  function IndexChar(index: nat): char {
    ((0x30 + index) % 256) as char
  }

  function Line(r: Row): string {
    var nm := NameText(r.name);
    nm + Spaces(PS_NAME_W - |nm|) + [' ', 't', IndexChar(r.index), ' ', ' '] + StateName(r.state) + ['\n']
  }

  function Listing(rows: seq<Row>): string {
    if rows == [] then [] else Listing(rows[..|rows| - 1]) + Line(rows[|rows| - 1])
  }

  /** The room sys_ps allows itself: one byte less than the buffer. */
  function PsRoom(size: nat): nat {
    if size == 0 then 0 else size - 1
  }

  /** Copy while n + 1 < size. */
  method Emit(out: array<char>, n: nat, size: nat, s: string, ghost text: string) returns (n': nat)
    requires size <= out.Length && n <= PsRoom(size) && out[..n] == Clip(text, PsRoom(size))
    modifies out
    ensures n' <= PsRoom(size) && out[..n'] == Clip(text + s, PsRoom(size))
  {
    n' := n;
    ghost var was := out[..n];
    var i := 0;
    while i < |s| && n' + 1 < size
      invariant 0 <= i <= |s| && n' <= PsRoom(size)
      invariant out[..n'] == was + s[..i] && n' == n + i
    {
      out[n'] := s[i];
      n' := n' + 1;
      i := i + 1;
    }
    if i == |s| {
      assert s[..i] == s;
    } else {
      assert (was + s)[..n'] == was + s[..i];
    }
    ClipAppend(text, s, PsRoom(size));
  }

  method EmitLine(r: Row, out: array<char>, n: nat, size: nat, ghost text: string) returns (n': nat)
    requires size <= out.Length && n <= PsRoom(size) && out[..n] == Clip(text, PsRoom(size))
    modifies out
    ensures n' <= PsRoom(size) && out[..n'] == Clip(text + Line(r), PsRoom(size))
  {
    var nm, st := NameText(r.name), StateName(r.state);
    var pad := Spaces(PS_NAME_W - |nm|);
    var mid := [' ', 't', IndexChar(r.index), ' ', ' '];
    n' := Emit(out, n, size, nm, text);
    n' := Emit(out, n', size, pad, text + nm);
    n' := Emit(out, n', size, mid, text + nm + pad);
    n' := Emit(out, n', size, st, text + nm + pad + mid);
    n' := Emit(out, n', size, ['\n'], text + nm + pad + mid + st);
    LineInParts(text, r);
  }

  lemma LineInParts(text: string, r: Row)
    ensures var nm := NameText(r.name);
            text + nm + Spaces(PS_NAME_W - |nm|) + [' ', 't', IndexChar(r.index), ' ', ' ']
            + StateName(r.state) + ['\n'] == text + Line(r)
  {
    var nm := NameText(r.name);
    var pad, mid := Spaces(PS_NAME_W - |nm|), [' ', 't', IndexChar(r.index), ' ', ' '];
    FiveParts(text, nm, pad, mid, StateName(r.state), ['\n']);
  }

  lemma FiveParts(t: string, a: string, b: string, c: string, d: string, e: string)
    ensures t + a + b + c + d + e == t + (a + b + c + d + e)
  {
    Regroup(t, a, b);
    Regroup(t, a + b, c);
    Regroup(t, a + b + c, d);
    Regroup(t, a + b + c + d, e);
  }

  /** sys_ps writes exactly the first size - 1 bytes of the full listing (none for size
      0), stopping in the middle of a line if it must. */
  method SysPs(rows: seq<Row>, out: array<char>, size: nat) returns (n: nat)
    requires size <= out.Length
    modifies out
    ensures n == |Clip(Listing(rows), PsRoom(size))|
    ensures n <= out.Length && out[..n] == Clip(Listing(rows), PsRoom(size))
  {
    n := 0;
    for i := 0 to |rows|
      invariant n <= PsRoom(size) && out[..n] == Clip(Listing(rows[..i]), PsRoom(size))
    {
      assert rows[..i + 1][..i] == rows[..i];
      n := EmitLine(rows[i], out, n, size, Listing(rows[..i]));
    }
    assert rows[..|rows|] == rows;
  }
}
