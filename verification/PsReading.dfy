/** What the listing of sys_ps says, as a reader of the text takes it: lines end at line
    feeds, the state is the last seven characters of a line, the index the digit before
    it, and what comes first is the name, padded with blanks. */
module PsReading {
  import opened Tasks
  import opened Writers
  import KS = KernelSpec

  datatype Entry = Entry(name: string, index: nat, state: TaskState)

  /** The four state words, as they are printed. */
  function ReadState(w: string): Option<TaskState> {
    if w == "READY  " then Some(Ready)
    else if w == "RUNNING" then Some(Running)
    else if w == "BLOCKED" then Some(Blocked)
    else if w == "DEAD   " then Some(Dead)
    else None
  }

  /** The text without its trailing blanks. */
  function Strip(s: string): string {
    if s != [] && s[|s| - 1] == ' ' then Strip(s[..|s| - 1]) else s
  }

  /** name, blank, 't', digit, two blanks, state. */
  function ReadLine(l: string): Option<Entry> {
    var n := |l| - 12;
    if n < 0 || l[n] != ' ' || l[n + 1] != 't' || !('0' <= l[n + 2] <= '9') || l[n + 3] != ' ' || l[n + 4] != ' ' then
      None
    else
      var state := ReadState(l[n + 5..]);
      if state.None? then None else Some(Entry(Strip(l[..n]), (l[n + 2] - '0') as nat, state.value))
  }

  /** Where the first line feed is, or the length. */
  function LineEnd(s: string): (n: nat)
    ensures n <= |s| && forall i :: 0 <= i < n ==> s[i] != '\n'
    ensures n < |s| ==> s[n] == '\n'
  {
    if s == [] || s[0] == '\n' then 0 else 1 + LineEnd(s[1..])
  }

  /** The complete lines of a text; an unfinished last line does not count. */
  function LinesOf(s: string): seq<string>
    decreases |s|
  {
    var n := LineEnd(s);
    if n == |s| then [] else [s[..n]] + LinesOf(s[n + 1..])
  }

  function ReadAll(s: string): seq<Option<Entry>> {
    ReadLines(LinesOf(s))
  }

  function ReadLines(lines: seq<string>): (es: seq<Option<Entry>>)
    ensures |es| == |lines|
  {
    seq(|lines|, i requires 0 <= i < |lines| => ReadLine(lines[i]))
  }

  /** A name that can be told from its padding and its line. */
  predicate Readable(name: string) {
    (forall i :: 0 <= i < |name| ==> name[i] != '\n') && (name == [] || name[|name| - 1] != ' ')
  }

  ghost predicate RowOk(r: Row) {
    Readable(NameText(r.name)) && r.index < 10
  }

  function EntryOf(r: Row): Entry {
    Entry(NameText(r.name), r.index, r.state)
  }

  function EntriesOf(rows: seq<Row>): (es: seq<Option<Entry>>)
    ensures |es| == |rows|
  {
    seq(|rows|, i requires 0 <= i < |rows| => Some(EntryOf(rows[i])))
  }

  // ------------------------------------------------------------------- one line

  lemma {:induction false} StripPadding(name: string, n: nat)
    requires name == [] || name[|name| - 1] != ' '
    ensures Strip(name + Spaces(n)) == name
    decreases n
  {
    var s := name + Spaces(n);
    if n == 0 {
      assert s == name;
    } else {
      assert s[..|s| - 1] == name + Spaces(n - 1);
      StripPadding(name, n - 1);
    }
  }

  /** The line without its line feed. */
  function Body(r: Row): string {
    var l := Line(r);
    l[..|l| - 1]
  }

  lemma StateWordReads(s: TaskState)
    ensures |StateName(s)| == 7 && ReadState(StateName(s)) == Some(s)
    ensures forall i :: 0 <= i < 7 ==> StateName(s)[i] != '\n'
  {
  }

  lemma BodyParts(r: Row)
    requires RowOk(r)
    ensures var nm := NameText(r.name); var n := if |nm| < 7 then 7 else |nm|;
            && |Line(r)| == n + 13 && Line(r)[n + 12] == '\n'
            && var l := Body(r);
            && l[..n] == nm + Spaces(7 - |nm|) && l[n] == ' ' && l[n + 1] == 't' && l[n + 2] == '0' + r.index as char
            && l[n + 3] == ' ' && l[n + 4] == ' ' && l[n + 5..] == StateName(r.state)
  {
    var nm, st := NameText(r.name), StateName(r.state);
    StateWordReads(r.state);
    var field, mid := nm + Spaces(7 - |nm|), [' ', 't', IndexChar(r.index), ' ', ' '];
    assert Line(r) == field + mid + st + ['\n'];
    assert Body(r) == field + mid + st;
  }

  lemma LineReads(r: Row)
    requires RowOk(r)
    ensures ReadLine(Body(r)) == Some(EntryOf(r))
    ensures forall i :: 0 <= i < |Body(r)| ==> Body(r)[i] != '\n'
    ensures Line(r) == Body(r) + ['\n']
  {
    BodyParts(r);
    StateWordReads(r.state);
    var nm := NameText(r.name);
    StripPadding(nm, if |nm| < 7 then 7 - |nm| else 0);
    BodyHasNoFeed(r);
  }

  lemma BodyHasNoFeed(r: Row)
    requires RowOk(r)
    ensures forall i :: 0 <= i < |Body(r)| ==> Body(r)[i] != '\n'
    ensures Line(r) == Body(r) + ['\n']
  {
    BodyParts(r);
    StateWordReads(r.state);
    var nm, l := NameText(r.name), Body(r);
    var n := if |nm| < 7 then 7 else |nm|;
    forall i | 0 <= i < |l|
      ensures l[i] != '\n'
    {
      if i < n {
        assert l[i] == (nm + Spaces(7 - |nm|))[i];
      } else if i >= n + 5 {
        assert l[i] == StateName(r.state)[i - n - 5];
      }
    }
  }

  // ------------------------------------------------------------ lines of a text

  /** Each line followed by a line feed. */
  function Join(lines: seq<string>): string {
    if lines == [] then [] else lines[0] + ['\n'] + Join(lines[1..])
  }

  ghost predicate NoFeeds(lines: seq<string>) {
    forall k, i :: 0 <= k < |lines| && 0 <= i < |lines[k]| ==> lines[k][i] != '\n'
  }

  lemma LineEndAt(a: string, b: string)
    requires forall i :: 0 <= i < |a| ==> a[i] != '\n'
    ensures LineEnd(a + ['\n'] + b) == |a|
  {
    var s := a + ['\n'] + b;
    assert s[|a|] == '\n';
    assert forall i :: 0 <= i < |a| ==> s[i] == a[i];
  }

  lemma NoLine(a: string)
    requires forall i :: 0 <= i < |a| ==> a[i] != '\n'
    ensures LinesOf(a) == []
  {
  }

  lemma FirstLine(a: string, b: string)
    requires forall i :: 0 <= i < |a| ==> a[i] != '\n'
    ensures LinesOf(a + ['\n'] + b) == [a] + LinesOf(b)
  {
    LineEndAt(a, b);
    var s := a + ['\n'] + b;
    assert s[..|a|] == a && s[|a| + 1..] == b;
  }

  /** However a text is cut off, its complete lines are the first ones. */
  lemma {:induction false} CutTextReads(lines: seq<string>, n: nat)
    requires n <= |Join(lines)| && NoFeeds(lines)
    ensures LinesOf(Join(lines)[..n]) <= lines
    ensures n == |Join(lines)| ==> LinesOf(Join(lines)[..n]) == lines
  {
    if lines == [] {
      assert Join(lines)[..n] == [];
    } else {
      var a, rest := lines[0], Join(lines[1..]);
      if n <= |a| {
        assert Join(lines)[..n] == a[..n];
        NoLine(a[..n]);
      } else {
        var m := n - |a| - 1;
        assert NoFeeds(lines[1..]);
        CutTextReads(lines[1..], m);
        CutFirst(a, rest, m);
      }
    }
  }

  lemma CutFirst(a: string, rest: string, m: nat)
    requires m <= |rest| && forall i :: 0 <= i < |a| ==> a[i] != '\n'
    ensures LinesOf((a + ['\n'] + rest)[..|a| + 1 + m]) == [a] + LinesOf(rest[..m])
  {
    assert (a + ['\n'] + rest)[..|a| + 1 + m] == a + ['\n'] + rest[..m];
    FirstLine(a, rest[..m]);
  }

  lemma {:induction false} JoinLast(lines: seq<string>, a: string)
    ensures Join(lines + [a]) == Join(lines) + (a + ['\n'])
  {
    if lines == [] {
      assert lines + [a] == [a] && [a][1..] == [];
    } else {
      assert (lines + [a])[1..] == lines[1..] + [a];
      JoinLast(lines[1..], a);
      Regroup(lines[0] + ['\n'], Join(lines[1..]), a + ['\n']);
    }
  }

  // ---------------------------------------------------------------- the listing

  function Bodies(rows: seq<Row>): (lines: seq<string>)
    ensures |lines| == |rows|
  {
    seq(|rows|, i requires 0 <= i < |rows| => Body(rows[i]))
  }

  lemma {:induction false} ListingIsJoin(rows: seq<Row>)
    requires forall i :: 0 <= i < |rows| ==> RowOk(rows[i])
    ensures Listing(rows) == Join(Bodies(rows))
  {
    if rows != [] {
      var init, last := rows[..|rows| - 1], rows[|rows| - 1];
      ListingIsJoin(init);
      BodyHasNoFeed(last);
      BodiesLast(rows);
      JoinLast(Bodies(init), Body(last));
      SameText(Listing(init), Line(last), Join(Bodies(init)), Body(last) + ['\n']);
    }
  }

  lemma BodiesLast(rows: seq<Row>)
    requires rows != []
    ensures Bodies(rows) == Bodies(rows[..|rows| - 1]) + [Body(rows[|rows| - 1])]
  {
  }

  lemma SameText(a: string, b: string, a': string, b': string)
    requires a == a' && b == b'
    ensures a + b == a' + b'
  {
  }

  lemma BodiesRead(rows: seq<Row>)
    requires forall i :: 0 <= i < |rows| ==> RowOk(rows[i])
    ensures NoFeeds(Bodies(rows)) && ReadLines(Bodies(rows)) == EntriesOf(rows)
  {
    forall i | 0 <= i < |rows|
      ensures ReadLine(Body(rows[i])) == Some(EntryOf(rows[i]))
      ensures forall j :: 0 <= j < |Body(rows[i])| ==> Body(rows[i])[j] != '\n'
    {
      LineReads(rows[i]);
    }
  }

  /** However a listing is cut off, its complete lines name the first threads of the
      table, in order, each with its name, its index and its state. */
  lemma CutListingReads(rows: seq<Row>, n: nat)
    requires n <= |Listing(rows)| && forall i :: 0 <= i < |rows| ==> RowOk(rows[i])
    ensures ReadAll(Listing(rows)[..n]) <= EntriesOf(rows)
    ensures n == |Listing(rows)| ==> ReadAll(Listing(rows)[..n]) == EntriesOf(rows)
  {
    ListingIsJoin(rows);
    BodiesRead(rows);
    CutTextReads(Bodies(rows), n);
    ReadPrefix(LinesOf(Listing(rows)[..n]), Bodies(rows));
  }

  lemma ReadPrefix(x: seq<string>, y: seq<string>)
    requires x <= y
    ensures ReadLines(x) <= ReadLines(y)
  {
  }

  // ------------------------------------------------------------------ from bytes

  function Chars(b: seq<Byte>): (s: string)
    ensures |s| == |b|
  {
    seq(|b|, i requires 0 <= i < |b| => b[i] as char)
  }

  predicate AllBytes(s: string) {
    forall i :: 0 <= i < |s| ==> s[i] as int < 256
  }

  lemma CharsOfBytes(s: string)
    requires AllBytes(s)
    ensures Chars(Bytes(s)) == s
  {
  }

  /** Process names of printable bytes, and single-digit thread numbers. */
  ghost predicate NamesOk(c: Config) {
    && c.Valid() && c.perProc <= 10
    && forall p :: 0 <= p < c.procs ==>
         Readable(NameText(c.names[p])) && AllBytes(NameText(c.names[p]))
  }

  /** The thread table as a reader should see it. */
  ghost function ThreadTable(c: Config, k: KS.Kern): (es: seq<Option<Entry>>)
    requires KS.Shape(c, k)
    ensures |es| == c.Threads()
  {
    seq(c.Threads(), t requires 0 <= t < c.Threads() => TableEntry(c, k, t))
  }

  ghost function TableEntry(c: Config, k: KS.Kern, t: nat): Option<Entry>
    requires KS.Shape(c, k) && t < c.Threads()
  {
    PidInRange(c, t);
    PidIsQuotient(c, t);
    var name := c.names[t / c.perProc];
    Some(Entry(if name.None? then "?" else name.value, t % c.perProc, k.states[t]))
  }

  lemma {:induction false} ListingIsBytes(rows: seq<Row>)
    requires forall i :: 0 <= i < |rows| ==> RowOk(rows[i]) && AllBytes(NameText(rows[i].name))
    ensures AllBytes(Listing(rows))
  {
    if rows != [] {
      ListingIsBytes(rows[..|rows| - 1]);
      LineIsBytes(rows[|rows| - 1]);
    }
  }

  lemma LineIsBytes(r: Row)
    requires AllBytes(NameText(r.name))
    ensures AllBytes(Line(r))
  {
    var nm, st := NameText(r.name), StateName(r.state);
    var a, mid := nm + Spaces(PS_NAME_W - |nm|), [' ', 't', IndexChar(r.index), ' ', ' '];
    assert forall i :: 0 <= i < |a| ==> a[i] as int < 256;
    assert forall i :: 0 <= i < |st| ==> st[i] as int < 256;
    assert Line(r) == a + mid + st + ['\n'];
  }

  /** What sys_ps stores, read back from the bytes: the first threads of the thread table,
      in tid order, each with the name of its process, its index and its present state;
      all of them when the buffer is longer than the listing. */
  lemma PsReportsTable(c: Config, k: KS.Kern, size: Word)
    requires KS.Shape(c, k) && NamesOk(c)
    ensures var text := KS.PsText(c, k, size); var full := |Listing(KS.Rows(c, k))|;
            && |text| == (if size == 0 then 0 else if full <= size - 1 then full else size - 1)
            && ReadAll(Chars(text)) <= ThreadTable(c, k)
            && (full < size ==> ReadAll(Chars(text)) == ThreadTable(c, k))
  {
    var rows := KS.Rows(c, k);
    var all := Listing(rows);
    RowsAreTable(c, k);
    ListingIsBytes(rows);
    var cut := Clip(all, PsRoom(size));
    assert cut == all[..|cut|];
    CutListingReads(rows, |cut|);
    CharsOfBytes(cut);
  }

  lemma RowsAreTable(c: Config, k: KS.Kern)
    requires KS.Shape(c, k) && NamesOk(c)
    ensures var rows := KS.Rows(c, k);
            && EntriesOf(rows) == ThreadTable(c, k)
            && forall i :: 0 <= i < |rows| ==> RowOk(rows[i]) && AllBytes(NameText(rows[i].name))
  {
    var rows := KS.Rows(c, k);
    forall t | 0 <= t < c.Threads()
      ensures EntriesOf(rows)[t] == ThreadTable(c, k)[t] && RowOk(rows[t])
      ensures AllBytes(NameText(rows[t].name))
    {
      PidInRange(c, t);
      PidIsQuotient(c, t);
      assert rows[t] == KS.RowOf(c, k, t);
      assert Readable(NameText(c.names[c.Pid(t)]));
    }
  }
}
