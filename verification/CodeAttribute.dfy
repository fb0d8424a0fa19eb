/** Writing a method's code attribute: the lengths that are declared first are the numbers of bytes
    that are written afterwards. */
module CodeAttribute {
  import opened Wrappers

  // ---------- the bytes ----------

  function U1(v: int): (r: seq<int>)
    ensures |r| == 1
  {
    [v % 256]
  }

  function U2(v: int): (r: seq<int>)
    ensures |r| == 2
  {
    [v / 256 % 256, v % 256]
  }

  function U4(v: int): (r: seq<int>)
    ensures |r| == 4
  {
    [v / 0x100_0000 % 256, v / 0x1_0000 % 256, v / 256 % 256, v % 256]
  }

  datatype MapEntry = MapEntry(kind: nat, info: int)
  datatype Frame = Frame(offset: nat, locals: seq<MapEntry>, stacks: seq<MapEntry>)
  datatype ExceptionEntry = ExceptionEntry(startPc: nat, endPc: nat, handlerPc: nat, catchType: nat)
  datatype Line = Line(pc: nat, number: nat)
  datatype Local = Local(pc0: nat, length: int, name: nat, signature: nat, slot: nat)

  /** A method's code and tables; names are given by their indices in the written pool. */
  datatype Method = Method(
    maxStack: nat, nLocals: nat, code: seq<int>, catches: seq<ExceptionEntry>, lines: seq<Line>, locals: seq<Local>,
    frames: seq<Frame>,
    lineTableName: nat, localTableName: nat, stackMapName: nat)

  const ITEM_OBJECT: nat := 7
  const ITEM_NEW_OBJECT: nat := 8

  /** An entry of a stack map. A class that is not in the old pool is given by the complement of its
      number among the new classes, which follow index `last`. */
  function EntryBytes(e: MapEntry, last: nat): seq<int> {
    U1(e.kind)
    + (if e.kind == ITEM_NEW_OBJECT then U2(e.info) else [])
    + (if e.kind == ITEM_OBJECT then U2(if e.info >= 0 then e.info else last + 1 + (-1 - e.info)) else [])
  }

  function MapBytes(entries: seq<MapEntry>, last: nat): seq<int> {
    if entries == [] then [] else MapBytes(entries[..|entries| - 1], last) + EntryBytes(entries[|entries| - 1], last)
  }

  /** The program's own count of these bytes. */
  function StackMapSize(entries: seq<MapEntry>): nat {
    if entries == [] then 0
    else
      var e := entries[|entries| - 1];
      StackMapSize(entries[..|entries| - 1]) + 1 + if e.kind == ITEM_OBJECT || e.kind == ITEM_NEW_OBJECT then 2 else 0
  }

  lemma {:induction false} MapBytesSize(entries: seq<MapEntry>, last: nat)
    ensures |MapBytes(entries, last)| == StackMapSize(entries)
  {
    if entries != [] {
      MapBytesSize(entries[..|entries| - 1], last);
    }
  }

  function FrameBytes(f: Frame, last: nat): seq<int> {
    U2(f.offset) + U2(|f.locals|) + MapBytes(f.locals, last) + U2(|f.stacks|) + MapBytes(f.stacks, last)
  }

  function FramesBytes(frames: seq<Frame>, last: nat): seq<int> {
    if frames == [] then [] else FramesBytes(frames[..|frames| - 1], last) + FrameBytes(frames[|frames| - 1], last)
  }

  function FramesSize(frames: seq<Frame>): nat {
    if frames == [] then 0
    else
      var f := frames[|frames| - 1];
      FramesSize(frames[..|frames| - 1]) + 6 + StackMapSize(f.locals) + StackMapSize(f.stacks)
  }

  lemma {:induction false} FramesBytesSize(frames: seq<Frame>, last: nat)
    ensures |FramesBytes(frames, last)| == FramesSize(frames)
  {
    if frames != [] {
      var f := frames[|frames| - 1];
      FramesBytesSize(frames[..|frames| - 1], last);
      MapBytesSize(f.locals, last);
      MapBytesSize(f.stacks, last);
      hide MapBytes, StackMapSize;
    }
  }

  function CatchBytes(c: ExceptionEntry): (r: seq<int>)
    ensures |r| == 8
  {
    U2(c.startPc) + U2(c.endPc) + U2(c.handlerPc) + U2(c.catchType)
  }

  function LineBytes(l: Line): (r: seq<int>)
    ensures |r| == 4
  {
    U2(l.pc) + U2(l.number)
  }

  function LocalBytes(l: Local): (r: seq<int>)
    ensures |r| == 10
  {
    U2(l.pc0) + U2(l.length) + U2(l.name) + U2(l.signature) + U2(l.slot)
  }

  function CatchesBytes(s: seq<ExceptionEntry>): (r: seq<int>)
    ensures |r| == 8 * |s|
  {
    if s == [] then [] else CatchesBytes(s[..|s| - 1]) + CatchBytes(s[|s| - 1])
  }

  function LinesBytes(s: seq<Line>): (r: seq<int>)
    ensures |r| == 4 * |s|
  {
    if s == [] then [] else LinesBytes(s[..|s| - 1]) + LineBytes(s[|s| - 1])
  }

  function LocalsBytes(s: seq<Local>): (r: seq<int>)
    ensures |r| == 10 * |s|
  {
    if s == [] then [] else LocalsBytes(s[..|s| - 1]) + LocalBytes(s[|s| - 1])
  }

  function CodeBytes(s: seq<int>): (r: seq<int>)
    ensures |r| == |s|
  {
    seq(|s|, (i: nat) requires i < |s| => s[i] % 256)
  }

  /** An attribute: its name, the number of its bytes, and the bytes. */
  function Attribute(name: nat, body: seq<int>): seq<int> {
    U2(name) + U4(|body|) + body
  }

  function LineTable(m: Method): seq<int> {
    if m.lines == [] then [] else Attribute(m.lineTableName, U2(|m.lines|) + LinesBytes(m.lines))
  }

  function LocalTable(m: Method): seq<int> {
    if m.locals == [] then [] else Attribute(m.localTableName, U2(|m.locals|) + LocalsBytes(m.locals))
  }

  function StackMaps(m: Method, last: nat): seq<int> {
    if m.frames == [] then [] else Attribute(m.stackMapName, U2(|m.frames|) + FramesBytes(m.frames, last))
  }

  function Tables(m: Method): nat {
    (if m.lines == [] then 0 else 1) + (if m.locals == [] then 0 else 1) + (if m.frames == [] then 0 else 1)
  }

  /** The contents of the code attribute: up to its own attributes, and those. */
  function CodeHead(m: Method): seq<int> {
    U2(m.maxStack) + U2(m.nLocals) + U4(|m.code|) + CodeBytes(m.code) + U2(|m.catches|) + CatchesBytes(m.catches)
    + U2(Tables(m))
  }

  function CodeBody(m: Method, last: nat): seq<int> {
    CodeHead(m) + LineTable(m) + LocalTable(m) + StackMaps(m, last)
  }

  // ---------- the buffer ----------

  class ClassBuffer {
    var classBuf: array<int>
    var classIndex: nat

    ghost predicate Valid()
      reads this
    {
      classIndex < classBuf.Length
    }

    ghost function Contents(): seq<int>
      requires Valid()
      reads this, classBuf
    {
      classBuf[..classIndex]
    }

    constructor ()
      ensures Valid() && fresh(classBuf) && Contents() == []
    {
      classBuf := new int[256](i => 0);
      classIndex := 0;
    }

    /** Doubles the buffer until there is room, keeping what it holds. */
    method EnsureCapacity(sz: nat)
      requires Valid()
      modifies `classBuf
      ensures Valid() && Contents() == old(Contents()) && classIndex + sz < classBuf.Length
      ensures classBuf == old(classBuf) || fresh(classBuf)
    {
      var size := classBuf.Length;
      while classIndex + sz >= size
        invariant size >= classBuf.Length > 0
        decreases classIndex + sz - size
      {
        size := size * 2;
      }
      if size > classBuf.Length {
        var newBuf := new int[size](i => 0);
        var i := 0;
        while i < classIndex
          invariant i <= classIndex && Valid() && classBuf == old(classBuf) && newBuf[..i] == classBuf[..i]
        {
          newBuf[i] := classBuf[i];
          i := i + 1;
        }
        classBuf := newBuf;
      }
    }

    method WriteU1(v: int)
      requires Valid()
      modifies this, classBuf
      ensures Valid() && Contents() == old(Contents()) + U1(v) && (classBuf == old(classBuf) || fresh(classBuf))
    {
      EnsureCapacity(1);
      classBuf[classIndex] := v % 256;
      classIndex := classIndex + 1;
    }

    method WriteU2(v: int)
      requires Valid()
      modifies this, classBuf
      ensures Valid() && Contents() == old(Contents()) + U2(v) && (classBuf == old(classBuf) || fresh(classBuf))
    {
      EnsureCapacity(2);
      classBuf[classIndex], classBuf[classIndex + 1] := v / 256 % 256, v % 256;
      classIndex := classIndex + 2;
    }

    method WriteU4(v: int)
      requires Valid()
      modifies this, classBuf
      ensures Valid() && Contents() == old(Contents()) + U4(v) && (classBuf == old(classBuf) || fresh(classBuf))
    {
      EnsureCapacity(4);
      classBuf[classIndex], classBuf[classIndex + 1] := v / 0x100_0000 % 256, v / 0x1_0000 % 256;
      classBuf[classIndex + 2], classBuf[classIndex + 3] := v / 256 % 256, v % 256;
      classIndex := classIndex + 4;
    }

    method WriteMapEntry(e: MapEntry, last: nat)
      requires Valid()
      modifies this, classBuf
      ensures Valid() && Contents() == old(Contents()) + EntryBytes(e, last)
              && (classBuf == old(classBuf) || fresh(classBuf))
    {
      hide U1, U2, Contents;
      WriteU1(e.kind);
      if e.kind == ITEM_NEW_OBJECT {
        WriteU2(e.info);
      }
      if e.kind == ITEM_OBJECT {
        WriteU2(if e.info >= 0 then e.info else last + 1 + (-1 - e.info));
      }
    }

    method WriteStackMap(entries: seq<MapEntry>, last: nat)
      requires Valid()
      modifies this, classBuf
      ensures Valid() && Contents() == old(Contents()) + MapBytes(entries, last)
              && (classBuf == old(classBuf) || fresh(classBuf))
    {
      hide EntryBytes, Contents;
      var i := 0;
      assert entries[..0] == [];
      while i < |entries|
        invariant Valid() && i <= |entries| && Contents() == old(Contents()) + MapBytes(entries[..i], last)
        invariant classBuf == old(classBuf) || fresh(classBuf)
      {
        assert entries[..i + 1][..i] == entries[..i];
        WriteMapEntry(entries[i], last);
        i := i + 1;
      }
      assert entries[..|entries|] == entries;
    }

    method WriteFrame(f: Frame, last: nat)
      requires Valid()
      modifies this, classBuf
      ensures Valid() && Contents() == old(Contents()) + FrameBytes(f, last)
              && (classBuf == old(classBuf) || fresh(classBuf))
    {
      hide U2, MapBytes, Contents;
      WriteU2(f.offset);
      WriteU2(|f.locals|);
      WriteStackMap(f.locals, last);
      WriteU2(|f.stacks|);
      WriteStackMap(f.stacks, last);
      Append5(old(Contents()), U2(f.offset), U2(|f.locals|), MapBytes(f.locals, last), U2(|f.stacks|),
        MapBytes(f.stacks, last));
    }

    method WriteFrames(frames: seq<Frame>, last: nat)
      requires Valid()
      modifies this, classBuf
      ensures Valid() && Contents() == old(Contents()) + FramesBytes(frames, last)
              && (classBuf == old(classBuf) || fresh(classBuf))
    {
      hide FrameBytes, Contents;
      var j := 0;
      assert frames[..0] == [];
      while j < |frames|
        invariant Valid() && j <= |frames| && Contents() == old(Contents()) + FramesBytes(frames[..j], last)
        invariant classBuf == old(classBuf) || fresh(classBuf)
      {
        assert frames[..j + 1][..j] == frames[..j];
        WriteFrame(frames[j], last);
        j := j + 1;
      }
      assert frames[..|frames|] == frames;
    }

    method WriteCode(code: seq<int>)
      requires Valid()
      modifies this, classBuf
      ensures Valid() && Contents() == old(Contents()) + CodeBytes(code)
              && (classBuf == old(classBuf) || fresh(classBuf))
    {
      var j := 0;
      while j < |code|
        invariant Valid() && j <= |code| && Contents() == old(Contents()) + CodeBytes(code[..j])
        invariant classBuf == old(classBuf) || fresh(classBuf)
      {
        WriteU1(code[j]);
        assert CodeBytes(code[..j + 1]) == CodeBytes(code[..j]) + U1(code[j]);
        j := j + 1;
      }
      assert code[..|code|] == code;
    }

    method WriteCatch(c: ExceptionEntry)
      requires Valid()
      modifies this, classBuf
      ensures Valid() && Contents() == old(Contents()) + CatchBytes(c) && (classBuf == old(classBuf) || fresh(classBuf))
    {
      hide U2, Contents;
      WriteU2(c.startPc);
      WriteU2(c.endPc);
      WriteU2(c.handlerPc);
      WriteU2(c.catchType);
      Append5(old(Contents()), U2(c.startPc), U2(c.endPc), U2(c.handlerPc), U2(c.catchType), []);
    }

    method WriteCatches(s: seq<ExceptionEntry>)
      requires Valid()
      modifies this, classBuf
      ensures Valid() && Contents() == old(Contents()) + CatchesBytes(s)
              && (classBuf == old(classBuf) || fresh(classBuf))
    {
      hide CatchBytes, Contents;
      var j := 0;
      assert s[..0] == [];
      while j < |s|
        invariant Valid() && j <= |s| && Contents() == old(Contents()) + CatchesBytes(s[..j])
        invariant classBuf == old(classBuf) || fresh(classBuf)
      {
        assert s[..j + 1][..j] == s[..j];
        WriteCatch(s[j]);
        j := j + 1;
      }
      assert s[..|s|] == s;
    }

    method WriteLines(s: seq<Line>)
      requires Valid()
      modifies this, classBuf
      ensures Valid() && Contents() == old(Contents()) + LinesBytes(s) && (classBuf == old(classBuf) || fresh(classBuf))
    {
      hide U2, Contents;
      var j := 0;
      assert s[..0] == [];
      while j < |s|
        invariant Valid() && j <= |s| && Contents() == old(Contents()) + LinesBytes(s[..j])
        invariant classBuf == old(classBuf) || fresh(classBuf)
      {
        assert s[..j + 1][..j] == s[..j];
        WriteU2(s[j].pc);
        WriteU2(s[j].number);
        j := j + 1;
      }
      assert s[..|s|] == s;
    }

    method WriteLocal(l: Local)
      requires Valid()
      modifies this, classBuf
      ensures Valid() && Contents() == old(Contents()) + LocalBytes(l) && (classBuf == old(classBuf) || fresh(classBuf))
    {
      hide U2, Contents;
      WriteU2(l.pc0);
      WriteU2(l.length);
      WriteU2(l.name);
      WriteU2(l.signature);
      WriteU2(l.slot);
      Append5(old(Contents()), U2(l.pc0), U2(l.length), U2(l.name), U2(l.signature), U2(l.slot));
    }

    method WriteLocals(s: seq<Local>)
      requires Valid()
      modifies this, classBuf
      ensures Valid() && Contents() == old(Contents()) + LocalsBytes(s)
              && (classBuf == old(classBuf) || fresh(classBuf))
    {
      hide LocalBytes, Contents;
      var j := 0;
      assert s[..0] == [];
      while j < |s|
        invariant Valid() && j <= |s| && Contents() == old(Contents()) + LocalsBytes(s[..j])
        invariant classBuf == old(classBuf) || fresh(classBuf)
      {
        assert s[..j + 1][..j] == s[..j];
        WriteLocal(s[j]);
        j := j + 1;
      }
      assert s[..|s|] == s;
    }

    /** The part of a code attribute before its own attributes. */
    method WriteCodeHead(m: Method)
      requires Valid()
      modifies this, classBuf
      ensures Valid() && Contents() == old(Contents()) + CodeHead(m) && (classBuf == old(classBuf) || fresh(classBuf))
    {
      hide U2, U4, CodeBytes, CatchesBytes, Contents;
      WriteU2(m.maxStack);
      WriteU2(m.nLocals);
      WriteU4(|m.code|);
      WriteCode(m.code);
      WriteU2(|m.catches|);
      Append5(old(Contents()), U2(m.maxStack), U2(m.nLocals), U4(|m.code|), CodeBytes(m.code), U2(|m.catches|));
      WriteCatches(m.catches);
      WriteU2(Tables(m));
    }

    method WriteLineTable(m: Method)
      requires Valid()
      modifies this, classBuf
      ensures Valid() && Contents() == old(Contents()) + LineTable(m) && (classBuf == old(classBuf) || fresh(classBuf))
    {
      hide U2, U4, LinesBytes, Contents;
      if |m.lines| > 0 {
        var attrLength := 4 * |m.lines| + 8;
        WriteU2(m.lineTableName);
        WriteU4(attrLength - 6);
        WriteU2(|m.lines|);
        WriteLines(m.lines);
        AttributeIs(old(Contents()), m.lineTableName, U2(|m.lines|), LinesBytes(m.lines));
      }
    }

    method WriteLocalTable(m: Method)
      requires Valid()
      modifies this, classBuf
      ensures Valid() && Contents() == old(Contents()) + LocalTable(m) && (classBuf == old(classBuf) || fresh(classBuf))
    {
      hide U2, U4, LocalsBytes, Contents;
      if |m.locals| > 0 {
        var attrLength := 10 * |m.locals| + 8;
        WriteU2(m.localTableName);
        WriteU4(attrLength - 6);
        WriteU2(|m.locals|);
        WriteLocals(m.locals);
        AttributeIs(old(Contents()), m.localTableName, U2(|m.locals|), LocalsBytes(m.locals));
      }
    }

    method WriteStackMaps(m: Method, last: nat)
      requires Valid()
      modifies this, classBuf
      ensures Valid() && Contents() == old(Contents()) + StackMaps(m, last)
              && (classBuf == old(classBuf) || fresh(classBuf))
    {
      hide U2, U4, FramesBytes, Contents;
      if |m.frames| > 0 {
        var attrLength := 8 + FramesSize(m.frames);
        FramesBytesSize(m.frames, last);
        WriteU2(m.stackMapName);
        WriteU4(attrLength - 6);
        WriteU2(|m.frames|);
        WriteFrames(m.frames, last);
        AttributeIs(old(Contents()), m.stackMapName, U2(|m.frames|), FramesBytes(m.frames, last));
      }
    }

    /** Writes the code attribute. The lengths, computed before anything is written, are exact. */
    method WriteCodeAttribute(m: Method, codeName: nat, last: nat)
      requires Valid()
      modifies this, classBuf
      ensures Valid() && Contents() == old(Contents()) + Attribute(codeName, CodeBody(m, last))
    {
      hide U2, U4, CodeHead, LineTable, LocalTable, StackMaps, FramesSize, Contents;
      var stackMapLength := if m.frames == [] then 0 else 8 + FramesSize(m.frames);
      var lineLength := if m.lines == [] then 0 else 4 * |m.lines| + 8;
      var localLength := if m.locals == [] then 0 else 10 * |m.locals| + 8;
      TableLengths(m, last);
      WriteU2(codeName);
      WriteU4(12 + |m.code| + |m.catches| * 8 + stackMapLength + lineLength + localLength);
      ghost var here := Contents();
      WriteCodeHead(m);
      WriteLineTable(m);
      WriteLocalTable(m);
      WriteStackMaps(m, last);
      Append5(here, CodeHead(m), LineTable(m), LocalTable(m), StackMaps(m, last), []);
      assert Contents() == here + CodeBody(m, last);
      Append5(old(Contents()), U2(codeName), U4(|CodeBody(m, last)|), CodeBody(m, last), [], []);
    }
  }

  lemma Append5(x: seq<int>, a: seq<int>, b: seq<int>, c: seq<int>, d: seq<int>, e: seq<int>)
    ensures x + a + b + c + d + e == x + (a + b + c + d + e)
    ensures e == [] ==> a + b + c + d + e == a + b + c + d && x + a + b + c + d == x + (a + b + c + d)
    ensures d == [] && e == [] ==> x + a + b + c == x + (a + b + c)
  {}

  lemma AttributeIs(x: seq<int>, name: nat, count: seq<int>, body: seq<int>)
    ensures x + U2(name) + U4(|count| + |body|) + count + body == x + Attribute(name, count + body)
  {
    hide U2, U4;
    assert |count + body| == |count| + |body|;
  }

  /** The lengths of the parts of a code attribute. */
  lemma TableLengths(m: Method, last: nat)
    ensures |CodeHead(m)| == 12 + |m.code| + 8 * |m.catches|
    ensures |LineTable(m)| == if m.lines == [] then 0 else 4 * |m.lines| + 8
    ensures |LocalTable(m)| == if m.locals == [] then 0 else 10 * |m.locals| + 8
    ensures |StackMaps(m, last)| == if m.frames == [] then 0 else 8 + FramesSize(m.frames)
  {
    hide U2, U4, LinesBytes, LocalsBytes, CatchesBytes, CodeBytes;
    FramesBytesSize(m.frames, last);
    hide FramesBytes, FramesSize;
  }

  // ---------- reading the fields back ----------

  function U2At(s: seq<int>, i: nat): int
    requires i + 2 <= |s|
  {
    256 * s[i] + s[i + 1]
  }

  function U4At(s: seq<int>, i: nat): int
    requires i + 4 <= |s|
  {
    0x1_0000 * U2At(s, i) + U2At(s, i + 2)
  }

  predicate Fits2(v: int) {
    0 <= v < 0x1_0000
  }

  lemma U2Value(a: seq<int>, v: int, b: seq<int>)
    ensures Fits2(v) ==> U2At(a + U2(v) + b, |a|) == v
  {}

  lemma U4Value(a: seq<int>, v: int, b: seq<int>)
    ensures 0 <= v < 0x1_0000_0000 ==> U4At(a + U4(v) + b, |a|) == v
  {
    if 0 <= v < 0x1_0000_0000 {
      LowHalf(v);
      HighHalf(v);
      var w := U4(v);
      var s := a + w + b;
      assert s[|a|] == w[0] && s[|a| + 1] == w[1] && s[|a| + 2] == w[2] && s[|a| + 3] == w[3];
    }
  }

  lemma LowHalf(v: nat)
    ensures 256 * (v / 256 % 256) + v % 256 == v % 0x1_0000
  {}

  lemma HighHalf(v: nat)
    requires v < 0x1_0000_0000
    ensures 256 * (v / 0x100_0000 % 256) + v / 0x1_0000 % 256 == v / 0x1_0000
  {
    var h := v / 0x1_0000;
    assert v / 0x100_0000 == h / 256;
  }

  /** An entry of the exception table, read back. */
  lemma CatchFields(c: ExceptionEntry)
    requires Fits2(c.startPc) && Fits2(c.endPc) && Fits2(c.handlerPc) && Fits2(c.catchType)
    ensures var b := CatchBytes(c);
            U2At(b, 0) == c.startPc && U2At(b, 2) == c.endPc && U2At(b, 4) == c.handlerPc && U2At(b, 6) == c.catchType
  {
    var p, q, r, t := U2(c.startPc), U2(c.endPc), U2(c.handlerPc), U2(c.catchType);
    U2Value([], c.startPc, q + r + t);
    U2Value(p, c.endPc, r + t);
    U2Value(p + q, c.handlerPc, t);
    U2Value(p + q + r, c.catchType, []);
    hide U2;
    assert CatchBytes(c) == [] + p + (q + r + t) == p + q + (r + t) == p + q + r + t + [];
  }

  /** An entry of the line-number table. */
  lemma LineFields(l: Line)
    requires Fits2(l.pc) && Fits2(l.number)
    ensures U2At(LineBytes(l), 0) == l.pc && U2At(LineBytes(l), 2) == l.number
  {}

  /** An entry of the local-variable table. */
  lemma LocalFields(l: Local)
    requires Fits2(l.pc0) && Fits2(l.length) && Fits2(l.name) && Fits2(l.signature) && Fits2(l.slot)
    ensures var b := LocalBytes(l);
            U2At(b, 0) == l.pc0 && U2At(b, 2) == l.length && U2At(b, 4) == l.name && U2At(b, 6) == l.signature
            && U2At(b, 8) == l.slot
  {
    var p, q, r, t, u := U2(l.pc0), U2(l.length), U2(l.name), U2(l.signature), U2(l.slot);
    U2Value([], l.pc0, q + r + t + u);
    U2Value(p, l.length, r + t + u);
    U2Value(p + q, l.name, t + u);
    U2Value(p + q + r, l.signature, u);
    U2Value(p + q + r + t, l.slot, []);
    hide U2;
    assert LocalBytes(l) == [] + p + (q + r + t + u) == p + q + (r + t + u) == p + q + r + (t + u)
        == p + q + r + t + u + [];
  }

  /** The second of two pieces, or a part of the first. */
  lemma Pieces(a: seq<int>, b: seq<int>, i: nat, j: nat)
    requires i <= j <= |a| + |b|
    ensures j <= |a| ==> (a + b)[i..j] == a[i..j]
    ensures i == |a| && j == |a| + |b| ==> (a + b)[i..j] == b
  {}

  lemma {:induction false} CatchAt(s: seq<ExceptionEntry>, k: nat)
    requires k < |s|
    ensures CatchesBytes(s)[8 * k..8 * k + 8] == CatchBytes(s[k])
  {
    hide CatchBytes;
    var init := s[..|s| - 1];
    Pieces(CatchesBytes(init), CatchBytes(s[|s| - 1]), 8 * k, 8 * k + 8);
    if k < |s| - 1 {
      CatchAt(init, k);
    }
  }

  lemma {:induction false} LineAt(s: seq<Line>, k: nat)
    requires k < |s|
    ensures LinesBytes(s)[4 * k..4 * k + 4] == LineBytes(s[k])
  {
    hide LineBytes;
    var init := s[..|s| - 1];
    Pieces(LinesBytes(init), LineBytes(s[|s| - 1]), 4 * k, 4 * k + 4);
    if k < |s| - 1 {
      LineAt(init, k);
    }
  }

  lemma {:induction false} LocalAt(s: seq<Local>, k: nat)
    requires k < |s|
    ensures LocalsBytes(s)[10 * k..10 * k + 10] == LocalBytes(s[k])
  {
    hide LocalBytes;
    var init := s[..|s| - 1];
    Pieces(LocalsBytes(init), LocalBytes(s[|s| - 1]), 10 * k, 10 * k + 10);
    if k < |s| - 1 {
      LocalAt(init, k);
    }
  }

  /** An attribute: its name, the number of bytes after that number, and those bytes. */
  lemma AttributeFields(name: nat, body: seq<int>)
    requires Fits2(name) && |body| < 0x1_0000_0000
    ensures var a := Attribute(name, body);
            |a| == 6 + |body| && U2At(a, 0) == name && U4At(a, 2) == |a| - 6 && a[6..] == body
  {
    U2Value([], name, U4(|body|) + body);
    U4Value(U2(name), |body|, body);
    hide U2, U4;
    assert Attribute(name, body) == [] + U2(name) + (U4(|body|) + body);
  }

  /** An entry of a stack map: its kind, and after kind 7 the index of a class, after kind 8 an offset. */
  lemma EntryFields(e: MapEntry, last: nat)
    requires e.kind < 256 && Fits2(if e.info >= 0 then e.info else last - e.info)
    ensures var b := EntryBytes(e, last);
            b != [] && b[0] == e.kind && |b| == (if e.kind == 7 || e.kind == 8 then 3 else 1)
            && (e.kind == 7 ==> U2At(b, 1) == if e.info >= 0 then e.info else last - e.info)
            && (e.kind == 8 && e.info >= 0 ==> U2At(b, 1) == e.info)
  {
    U2Value(U1(e.kind), if e.kind == 7 && e.info < 0 then last - e.info else e.info, []);
  }

  /** A stack map: its offset, the number of registers and these, the height of the stack and its items. */
  lemma FrameFields(f: Frame, last: nat)
    requires Fits2(f.offset) && Fits2(|f.locals|) && Fits2(|f.stacks|)
    ensures var b, n := FrameBytes(f, last), StackMapSize(f.locals);
            |b| == 6 + n + StackMapSize(f.stacks)
            && U2At(b, 0) == f.offset && U2At(b, 2) == |f.locals| && b[4..4 + n] == MapBytes(f.locals, last)
            && U2At(b, 4 + n) == |f.stacks| && b[6 + n..] == MapBytes(f.stacks, last)
  {
    var p, q, r, t, u := U2(f.offset), U2(|f.locals|), MapBytes(f.locals, last), U2(|f.stacks|),
        MapBytes(f.stacks, last);
    MapBytesSize(f.locals, last);
    MapBytesSize(f.stacks, last);
    U2Value([], f.offset, q + r + t + u);
    U2Value(p, |f.locals|, r + t + u);
    U2Value(p + q + r, |f.stacks|, u);
    hide U2, MapBytes, StackMapSize;
    assert FrameBytes(f, last) == [] + p + (q + r + t + u) == p + q + (r + t + u);
  }

  /** The code attribute up to its own attributes, read field by field. */
  lemma HeadFields(m: Method)
    requires Fits2(m.maxStack) && Fits2(m.nLocals) && |m.code| < 0x1_0000_0000 && Fits2(|m.catches|)
    ensures var h, n := CodeHead(m), |m.code|;
            && |h| == 12 + n + 8 * |m.catches|
            && U2At(h, 0) == m.maxStack && U2At(h, 2) == m.nLocals && U4At(h, 4) == n
            && h[8..8 + n] == CodeBytes(m.code) && U2At(h, 8 + n) == |m.catches|
            && h[10 + n..|h| - 2] == CatchesBytes(m.catches)
            && U2At(h, |h| - 2) == Tables(m)
  {
    var a, b, c, d := U2(m.maxStack), U2(m.nLocals), U4(|m.code|), CodeBytes(m.code);
    var e, f, g := U2(|m.catches|), CatchesBytes(m.catches), U2(Tables(m));
    U2Value([], m.maxStack, b + c + d + e + f + g);
    U2Value(a, m.nLocals, c + d + e + f + g);
    U4Value(a + b, |m.code|, d + e + f + g);
    U2Value(a + b + c + d, |m.catches|, f + g);
    U2Value(a + b + c + d + e + f, Tables(m), []);
    HeadParts(a, b, c, d, e, f, g);
    hide U2, U4, U2At, U4At, CodeBytes, CatchesBytes;
  }

  /** Seven parts in a row. */
  lemma HeadParts(a: seq<int>, b: seq<int>, c: seq<int>, d: seq<int>, e: seq<int>, f: seq<int>, g: seq<int>)
    ensures var h := a + b + c + d + e + f + g;
            && h == [] + a + (b + c + d + e + f + g) == a + b + (c + d + e + f + g) == a + b + c + (d + e + f + g)
            && h == a + b + c + d + e + (f + g) == a + b + c + d + e + f + g + []
            && h[|a| + |b| + |c|..|a| + |b| + |c| + |d|] == d
            && h[|a| + |b| + |c| + |d| + |e|..|h| - |g|] == f
  {
    var h := a + b + c + d + e + f + g;
    assert h == a + b + c + (d + e + f + g);
    assert h == a + b + c + d + e + (f + g);
  }
}
