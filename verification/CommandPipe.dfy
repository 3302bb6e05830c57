/** The command splitter getLineFromPipe: commands end with a semicolon or a newline, however the pipe cuts them. */
module CommandPipe {
  import opened Bytes

  const BUFFER_SIZE := 1024

  predicate IsEnd(c: Byte) {
    c == 0x3b || c == 0x0a
  }

  predicate IsIndent(c: Byte) {
    c == 0x20 || c == 0x09
  }

  /** The position of the first end of a command, or the length. */
  function FirstEnd(s: seq<Byte>): (n: nat)
    ensures n <= |s| && (n < |s| ==> IsEnd(s[n]))
    ensures forall i :: 0 <= i < n ==> !IsEnd(s[i])
  {
    if s == [] || IsEnd(s[0]) then 0 else 1 + FirstEnd(s[1..])
  }

  function TrimStart(s: seq<Byte>): seq<Byte> {
    if s != [] && IsIndent(s[0]) then TrimStart(s[1..]) else s
  }

  /** The commands that are complete in a stream of bytes, without their indents. */
  function Commands(s: seq<Byte>): seq<seq<Byte>>
    decreases |s|
  {
    var n := FirstEnd(s);
    if n == |s| then [] else [TrimStart(s[..n])] + Commands(s[n + 1..])
  }

  /** What follows the last complete command. */
  function Rest(s: seq<Byte>): seq<Byte>
    decreases |s|
  {
    var n := FirstEnd(s);
    if n == |s| then s else Rest(s[n + 1..])
  }

  lemma {:induction false} FirstEndAppend(s: seq<Byte>, t: seq<Byte>)
    ensures FirstEnd(s) < |s| ==> FirstEnd(s + t) == FirstEnd(s)
    ensures FirstEnd(s) == |s| ==> FirstEnd(s + t) == |s| + FirstEnd(t)
  {
    if s == [] {
      assert s + t == t;
    } else {
      assert (s + t)[1..] == s[1..] + t;
      FirstEndAppend(s[1..], t);
    }
  }

  lemma CommandsStep(s: seq<Byte>)
    requires FirstEnd(s) < |s|
    ensures var n := FirstEnd(s); Commands(s) == [TrimStart(s[..n])] + Commands(s[n + 1..]) && Rest(s) == Rest(s[n + 1..])
  {
  }

  lemma NoCommand(s: seq<Byte>)
    requires FirstEnd(s) == |s|
    ensures Commands(s) == [] && Rest(s) == s
  {
  }

  /** More bytes add commands behind the complete ones; the first of them begins with the old rest. */
  lemma {:induction false} CommandsAppend(s: seq<Byte>, t: seq<Byte>)
    ensures Commands(s + t) == Commands(s) + Commands(Rest(s) + t) && Rest(s + t) == Rest(Rest(s) + t)
    decreases |s|
  {
    hide Commands, Rest, FirstEnd, TrimStart;
    var n := FirstEnd(s);
    if n < |s| {
      FirstEndAppend(s, t);
      assert (s + t)[..n] == s[..n] && (s + t)[n + 1..] == s[n + 1..] + t;
      CommandsAppend(s[n + 1..], t);
      CommandsStep(s);
      CommandsStep(s + t);
    } else {
      NoCommand(s);
      assert [] + Commands(s + t) == Commands(s + t);
    }
  }

  /** The commands returned so far and those still pending are the commands of all that was read. */
  ghost predicate Splits(all: seq<Byte>, returned: seq<seq<Byte>>, pending: seq<Byte>) {
    Commands(all) == returned + Commands(pending) && Rest(all) == Rest(pending)
  }

  lemma SplitsRead(all: seq<Byte>, returned: seq<seq<Byte>>, pending: seq<Byte>, chunk: seq<Byte>)
    requires Splits(all, returned, pending)
    ensures Splits(all + chunk, returned, pending + chunk)
  {
    CommandsAppend(all, chunk);
    CommandsAppend(pending, chunk);
    hide Commands, Rest;
    assert returned + Commands(pending) + Commands(Rest(pending) + chunk)
        == returned + (Commands(pending) + Commands(Rest(pending) + chunk));
  }

  lemma SplitsReturn(all: seq<Byte>, returned: seq<seq<Byte>>, pending: seq<Byte>)
    requires Splits(all, returned, pending) && FirstEnd(pending) < |pending|
    ensures var n := FirstEnd(pending);
      Splits(all, returned + [TrimStart(pending[..n])], pending[n + 1..])
  {
    CommandsStep(pending);
    hide Commands, Rest, TrimStart, FirstEnd;
    var n := FirstEnd(pending);
    assert returned + ([TrimStart(pending[..n])] + Commands(pending[n + 1..]))
        == returned + [TrimStart(pending[..n])] + Commands(pending[n + 1..]);
  }

  lemma {:induction false} RestEnds(s: seq<Byte>)
    ensures FirstEnd(Rest(s)) == |Rest(s)|
    ensures Rest(s) != [] ==> s != [] && s[|s| - 1] == Rest(s)[|Rest(s)| - 1]
    decreases |s|
  {
    hide Commands, Rest, FirstEnd;
    var n := FirstEnd(s);
    if n == |s| {
      NoCommand(s);
    } else {
      CommandsStep(s);
      RestEnds(s[n + 1..]);
    }
  }

  /** Without its last byte a stream that ends in the middle of a command has the same commands. */
  lemma CommandsBefore(s: seq<Byte>, b: Byte)
    requires !IsEnd(b)
    ensures Commands(s + [b]) == Commands(s) && Rest(s + [b]) == Rest(s) + [b]
  {
    CommandsAppend(s, [b]);
    RestEnds(s);
    FirstEndAppend(Rest(s), [b]);
    NoCommand(Rest(s) + [b]);
    hide Commands, Rest;
    assert Commands(s) + [] == Commands(s);
  }

  lemma SplitsLess(all: seq<Byte>, returned: seq<seq<Byte>>, pending: seq<Byte>)
    requires Splits(all, returned, pending) && FirstEnd(pending) == |pending| > 0
    ensures all != [] && Splits(all[..|all| - 1], returned, pending[..|pending| - 1])
  {
    hide Commands, Rest, FirstEnd, IsEnd, Splits;
    InCommand(all, returned, pending);
    var s, b := all[..|all| - 1], all[|all| - 1];
    assert all == s + [b];
    SplitsBefore(s, b, returned, pending);
  }

  /** What is pending without an end is not a command, and its last byte is the last one read. */
  lemma InCommand(all: seq<Byte>, returned: seq<seq<Byte>>, pending: seq<Byte>)
    requires Splits(all, returned, pending) && FirstEnd(pending) == |pending| > 0
    ensures Rest(pending) == pending && Commands(pending) == []
    ensures all != [] && !IsEnd(all[|all| - 1])
  {
    hide Commands, Rest, FirstEnd, IsEnd;
    NoCommand(pending);
    RestEnds(all);
  }

  lemma SplitsBefore(s: seq<Byte>, b: Byte, returned: seq<seq<Byte>>, pending: seq<Byte>)
    requires Splits(s + [b], returned, pending) && Rest(pending) == pending && Commands(pending) == [] && !IsEnd(b)
    ensures pending != [] && Splits(s, returned, pending[..|pending| - 1])
  {
    hide Commands, Rest, FirstEnd, IsEnd;
    RestBefore(s, b, pending);
    CommandsBefore(s, b);
  }

  lemma RestBefore(s: seq<Byte>, b: Byte, pending: seq<Byte>)
    requires Rest(s + [b]) == pending && !IsEnd(b)
    ensures pending != [] && Rest(s) == pending[..|pending| - 1] == Rest(pending[..|pending| - 1])
    ensures Commands(pending[..|pending| - 1]) == []
  {
    hide Commands, Rest, FirstEnd, IsEnd;
    CommandsBefore(s, b);
    RestEnds(s);
    NoCommand(Rest(s));
    LessOne(Rest(s), b);
  }

  lemma LessOne(s: seq<Byte>, b: Byte)
    ensures (s + [b])[..|s + [b]| - 1] == s
  {
  }

  /** However the same bytes are cut into reads, once no command is pending the same commands were returned and
      the same bytes are left. */
  lemma CuttingDoesNotMatter(all: seq<Byte>, r1: seq<seq<Byte>>, p1: seq<Byte>, r2: seq<seq<Byte>>, p2: seq<Byte>)
    requires Splits(all, r1, p1) && Splits(all, r2, p2) && FirstEnd(p1) == |p1| && FirstEnd(p2) == |p2|
    ensures r1 == r2 == Commands(all) && p1 == p2 == Rest(all)
  {
    assert r1 + [] == r1 && r2 + [] == r2;
  }

  /** A command of the pipe: what stands before the first semicolon or newline, from its first byte on that is
      neither a space nor a tab. */
  predicate IsCommand(text: seq<Byte>, pending: seq<Byte>, n: nat) {
    && n < |pending| && (pending[n] == 0x3b || pending[n] == 0x0a)
    && (forall i :: 0 <= i < n ==> pending[i] != 0x3b && pending[i] != 0x0a)
    && |text| <= n && text == pending[n - |text|..n]
    && (forall i :: 0 <= i < n - |text| ==> pending[i] == 0x20 || pending[i] == 0x09)
    && (text != [] ==> text[0] != 0x20 && text[0] != 0x09)
  }

  lemma {:induction false} TrimmedIs(s: seq<Byte>)
    ensures var t := TrimStart(s);
      && |t| <= |s| && t == s[|s| - |t|..] && (t != [] ==> t[0] != 0x20 && t[0] != 0x09)
      && forall i :: 0 <= i < |s| - |t| ==> s[i] == 0x20 || s[i] == 0x09
    decreases |s|
  {
    if s != [] && IsIndent(s[0]) {
      TrimmedIs(s[1..]);
    }
  }

  lemma FirstCommandIs(pending: seq<Byte>)
    requires FirstEnd(pending) < |pending|
    ensures var n := FirstEnd(pending); IsCommand(TrimStart(pending[..n]), pending, n)
  {
    hide TrimStart, FirstEnd;
    var n := FirstEnd(pending);
    var s := pending[..n];
    var t := TrimStart(s);
    TrimmedIs(s);
    assert s[n - |t|..] == pending[n - |t|..n];
  }

  lemma NoEndIs(pending: seq<Byte>)
    requires FirstEnd(pending) == |pending|
    ensures forall i :: 0 <= i < |pending| ==> pending[i] != 0x3b && pending[i] != 0x0a
  {
  }

  lemma NotShorter(pending: seq<Byte>, a: seq<Byte>, b: seq<Byte>, n: nat)
    requires IsCommand(a, pending, n) && IsCommand(b, pending, n)
    ensures |a| >= |b|
  {
    if b != [] {
      assert b[0] == pending[n - |b|];
    }
  }

  /** There is one way only to read the first command off the bytes. */
  lemma CommandIsUnique(pending: seq<Byte>, a: seq<Byte>, m: nat, b: seq<Byte>, n: nat)
    requires IsCommand(a, pending, m) && IsCommand(b, pending, n)
    ensures a == b && m == n
  {
    assert m == n;
    NotShorter(pending, a, b, n);
    NotShorter(pending, b, a, n);
  }

  datatype Line = Line(text: seq<Byte>) | Nothing

  /** What read brings: bytes, or -1. */
  datatype Arrival = Arrived(bytes: seq<Byte>) | Failed

  predicate NoNul(s: seq<Byte>) {
    forall i :: 0 <= i < |s| ==> s[i] != 0
  }

  class CommandReader {
    const cmdbuf: array<Byte>
    var cmdbufp: nat
    var cmdstrt: nat
    /** All bytes read and all commands returned, for the specification. */
    ghost var all: seq<Byte>
    ghost var returned: seq<seq<Byte>>

    ghost predicate Terminated()
      reads this, cmdbuf
    {
      && cmdbuf.Length == BUFFER_SIZE && cmdstrt <= cmdbufp < BUFFER_SIZE
      && cmdbuf[cmdbufp] == 0 && NoNul(cmdbuf[cmdstrt..cmdbufp])
    }

    ghost function Pending(): seq<Byte>
      requires Terminated()
      reads this, cmdbuf
    {
      cmdbuf[cmdstrt..cmdbufp]
    }

    ghost predicate Valid()
      reads this, cmdbuf
    {
      Terminated() && Splits(all, returned, Pending())
    }

    constructor ()
      ensures Valid() && all == [] && returned == [] && Pending() == [] && fresh(cmdbuf)
    {
      cmdbuf := new Byte[BUFFER_SIZE](_ => 0);
      cmdbufp, cmdstrt := 0, 0;
      all, returned := [], [];
    }

    /** Moves the pending bytes to the front, and ends an empty buffer. */
    method RemoveUsed()
      requires Terminated()
      modifies this`cmdbufp, this`cmdstrt, cmdbuf
      ensures Terminated() && Pending() == old(Pending()) && cmdstrt == 0
    {
      if cmdstrt > 0 {
        var shift := cmdstrt;
        ghost var was, pending := cmdbuf[..], Pending();
        var i := 0;
        while i < BUFFER_SIZE - shift
          invariant i <= BUFFER_SIZE - shift && cmdstrt == shift && cmdbufp == old(cmdbufp)
          invariant forall j :: 0 <= j < i ==> cmdbuf[j] == was[j + shift]
          invariant forall j :: i <= j < BUFFER_SIZE ==> cmdbuf[j] == was[j]
        {
          cmdbuf[i] := cmdbuf[i + shift];
          i := i + 1;
        }
        assert cmdbuf[..cmdbufp - shift] == pending;
        cmdbufp := cmdbufp - shift;
        cmdstrt := 0;
      }
      if cmdbufp == 0 {
        cmdbuf[cmdbufp] := 0;
      }
    }

    /** strpbrk(&cmdbuf[first], ";\\n"): the place of the first end before the terminator. */
    method Strpbrk(first: nat) returns (nlp: int)
      requires Terminated() && cmdstrt == 0 && first <= cmdbufp
      ensures nlp == -1 ==> FirstEnd(cmdbuf[first..cmdbufp]) == cmdbufp - first
      ensures nlp != -1 ==> first <= nlp < cmdbufp && FirstEnd(cmdbuf[first..cmdbufp]) == nlp - first
    {
      nlp := first;
      ghost var s := cmdbuf[first..cmdbufp];
      while cmdbuf[nlp] != 0
        invariant first <= nlp <= cmdbufp
        invariant forall i :: 0 <= i < nlp - first ==> !IsEnd(s[i])
        decreases cmdbufp - nlp
      {
        if IsEnd(cmdbuf[nlp]) {
          assert s[nlp - first] == cmdbuf[nlp];
          return;
        }
        assert s[nlp - first] == cmdbuf[nlp];
        nlp := nlp + 1;
      }
      nlp := -1;
    }

    /** read: `arrived` goes behind the pending bytes, with a terminator. */
    method Read(arrived: seq<Byte>)
      requires Terminated() && cmdstrt == 0 && cmdbufp + |arrived| < BUFFER_SIZE && NoNul(arrived)
      modifies this`cmdbufp, cmdbuf
      ensures Terminated() && Pending() == old(Pending()) + arrived && cmdbufp == old(cmdbufp) + |arrived|
    {
      ghost var was := cmdbuf[..];
      var i := 0;
      while i < |arrived|
        invariant i <= |arrived| && cmdbufp == old(cmdbufp)
        invariant cmdbuf[cmdbufp..cmdbufp + i] == arrived[..i]
        invariant cmdbuf[..cmdbufp] == was[..cmdbufp]
      {
        cmdbuf[cmdbufp + i] := arrived[i];
        i := i + 1;
      }
      assert arrived[..i] == arrived;
      cmdbuf[cmdbufp + i] := 0;
      assert cmdbuf[..cmdbufp + i] == was[..cmdbufp] + arrived;
      cmdbufp := cmdbufp + i;
    }

    /** The start of the command that ends at nlp. */
    method SkipIndent(nlp: nat) returns (fl: nat)
      requires nlp < cmdbuf.Length && cmdbuf[nlp] == 0
      ensures fl <= nlp && cmdbuf[fl..nlp] == TrimStart(cmdbuf[..nlp])
    {
      fl := 0;
      assert cmdbuf[0..nlp] == cmdbuf[..nlp];
      while cmdbuf[fl] != 0 && IsIndent(cmdbuf[fl])
        invariant fl <= nlp && TrimStart(cmdbuf[fl..nlp]) == TrimStart(cmdbuf[..nlp])
        decreases nlp - fl
      {
        assert cmdbuf[fl..nlp][1..] == cmdbuf[fl + 1..nlp];
        fl := fl + 1;
      }
    }

    /** A failed read counts as -1 bytes: the last pending byte is lost. */
    method ReadFails()
      requires Terminated() && cmdstrt == 0 && cmdbufp > 0
      modifies this`cmdbufp, cmdbuf
      ensures Terminated() && cmdstrt == 0 && Pending() == old(Pending())[..|old(Pending())| - 1]
    {
      cmdbuf[cmdbufp - 1] := 0;
      cmdbufp := cmdbufp - 1;
    }

    /** Reads, and looks for an end in what arrived. */
    method ReadMore(arrived: seq<Byte>) returns (nlp: int)
      requires Terminated() && cmdstrt == 0 && |Pending()| + |arrived| < BUFFER_SIZE && NoNul(arrived)
      requires FirstEnd(Pending()) == |Pending()|
      modifies this`cmdbufp, cmdbuf
      ensures Terminated() && cmdstrt == 0 && Pending() == old(Pending()) + arrived && |Pending()| == cmdbufp
      ensures -1 <= nlp < cmdbufp && FirstEnd(Pending()) == if nlp == -1 then cmdbufp else nlp
    {
      hide FirstEnd;
      var first := cmdbufp;
      FirstEndAppend(Pending(), arrived);
      Read(arrived);
      nlp := Strpbrk(first);
      assert cmdbuf[first..cmdbufp] == arrived;
    }

    /** The command that ends at nlp; the next one starts behind it. */
    method CutCommand(nlp: nat) returns (text: seq<Byte>)
      requires Terminated() && cmdstrt == 0 && nlp < cmdbufp
      modifies this`cmdstrt, cmdbuf
      ensures Terminated() && Pending() == old(Pending())[nlp + 1..] && text == TrimStart(old(Pending())[..nlp])
    {
      hide TrimStart;
      ghost var p := Pending();
      cmdbuf[nlp] := 0;
      cmdstrt := nlp + 1;
      var fl := SkipIndent(nlp);
      text := cmdbuf[fl..nlp];
      assert cmdbuf[..nlp] == p[..nlp] && Pending() == p[nlp + 1..];
    }

    /** getLineFromPipe: the first complete command of the pending bytes, after a read if there was none; the read
        brings at most what the buffer has room for, or fails. A failed read takes back the last byte; with nothing
        pending that is a write in front of the buffer. */
    method GetLine(read: Arrival) returns (line: Line, fault: bool)
      requires Valid() && (read.Arrived? ==> |Pending()| + |read.bytes| < BUFFER_SIZE && NoNul(read.bytes))
      modifies this, cmdbuf
      ensures fault == (old(Pending()) == [] && read.Failed?) && (!fault ==> Valid())
      ensures var was := old(Pending()); FirstEnd(was) == |was| && read.Failed? && !fault ==>
        && line == Nothing && returned == old(returned) && Pending() == was[..|was| - 1]
        && old(all) != [] && all == old(all)[..|old(all)| - 1]
      ensures var was := old(Pending()); FirstEnd(was) < |was| || read.Arrived? ==>
        var added := if FirstEnd(was) < |was| then [] else read.bytes;
        var p := was + added; var n := FirstEnd(p);
        && all == old(all) + added
        && if n < |p| then
             && line == Line(TrimStart(p[..n])) && Pending() == p[n + 1..] && returned == old(returned) + [line.text]
             && IsCommand(line.text, p, n)
           else
             && line == Nothing && Pending() == p && returned == old(returned)
             && forall i :: 0 <= i < |p| ==> p[i] != 0x3b && p[i] != 0x0a
    {
      hide FirstEnd, TrimStart, Splits, NoNul, Commands, Rest, IsCommand;
      ghost var was := Pending();
      RemoveUsed();
      fault := false;
      var nlp := Strpbrk(0);
      if nlp == -1 && read.Failed? {
        line, fault := Nothing, cmdbufp == 0;
        if !fault {
          SplitsLess(all, returned, was);
          ReadFails();
          all := all[..|all| - 1];
        }
        return;
      }
      ghost var added := [];
      if nlp == -1 {
        added := read.bytes;
        nlp := ReadMore(read.bytes);
      }
      SplitsRead(all, returned, was, added);
      all := all + added;
      line := Extract(nlp, was + added);
      if nlp != -1 {
        FirstCommandIs(was + added);
      } else {
        NoEndIs(was + added);
      }
    }

    /** The command that ends at nlp, if an end was found. */
    method Extract(nlp: int, ghost p: seq<Byte>) returns (line: Line)
      requires Terminated() && cmdstrt == 0 && Pending() == p && Splits(all, returned, p)
      requires -1 <= nlp < cmdbufp && FirstEnd(p) == if nlp == -1 then cmdbufp else nlp
      modifies this`cmdstrt, this`returned, cmdbuf
      ensures Valid()
      ensures var n := FirstEnd(p);
        if n < |p| then line == Line(TrimStart(p[..n])) && Pending() == p[n + 1..] && returned == old(returned) + [line.text]
        else line == Nothing && Pending() == p && returned == old(returned)
    {
      hide FirstEnd, TrimStart, Splits, NoNul, Commands, Rest;
      if nlp != -1 {
        SplitsReturn(all, returned, p);
        var text := CutCommand(nlp);
        line := Line(text);
        returned := returned + [text];
      } else {
        line := Nothing;
      }
    }
  }
}
