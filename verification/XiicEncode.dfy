/** The words a transfer puts into the TX FIFO, as a function of the message
    list alone, and a reader of dynamic-mode words that recovers the messages. */
module XiicEncode {
  import opened Wrappers
  import opened XiicSpec

  // ----- The encoder -----

  /** The word that carries data byte j of a write. */
  function DataWord(m: Msg, last: bool, dyn: bool, j: nat): nat {
    if dyn && last && j == m.len - 1 then OrBit(ByteAt(m, j), 512) else ByteAt(m, j)
  }

  function FirstWord(m: Msg, last: bool, dyn: bool): nat {
    if !dyn then AddrByte(m)
    else if last && m.len == 0 && !m.rd then OrBit(OrBit(AddrByte(m), 256), 512)
    else OrBit(AddrByte(m), 256)
  }

  function DataWords(m: Msg, last: bool, dyn: bool, k: nat): (r: seq<nat>)
    ensures |r| == k
  {
    seq(k, j requires 0 <= j => DataWord(m, last, dyn, j))
  }

  function EncodeMsg(m: Msg, last: bool, dyn: bool): seq<nat> {
    [FirstWord(m, last, dyn)] +
    if !m.rd then DataWords(m, last, dyn, m.len)
    else if dyn then [if last then OrBit(m.len, 512) else m.len]
    else []
  }

  function EncodeAt(msgs: seq<Msg>, dyn: bool, i: nat): seq<nat>
    requires i < |msgs|
  {
    EncodeMsg(msgs[i], i == |msgs| - 1, dyn)
  }

  /** The words of messages k, k+1, ... */
  function EncodeFrom(msgs: seq<Msg>, dyn: bool, k: nat): seq<nat>
    requires k <= |msgs|
    decreases |msgs| - k
  {
    if k == |msgs| then [] else EncodeAt(msgs, dyn, k) + EncodeFrom(msgs, dyn, k + 1)
  }

  function Encode(msgs: seq<Msg>, dyn: bool): seq<nat> {
    EncodeFrom(msgs, dyn, 0)
  }

  /** The words of the first k messages. */
  function EncodeUpTo(msgs: seq<Msg>, dyn: bool, k: nat): seq<nat>
    requires k <= |msgs|
  {
    if k == 0 then [] else EncodeUpTo(msgs, dyn, k - 1) + EncodeAt(msgs, dyn, k - 1)
  }

  lemma Regroup(a: seq<nat>, b: seq<nat>, c: seq<nat>)
    ensures a + (b + c) == (a + b) + c
  {
  }

  lemma {:induction false} SplitEncoding(msgs: seq<Msg>, dyn: bool, k: nat)
    requires k <= |msgs|
    ensures EncodeUpTo(msgs, dyn, k) + EncodeFrom(msgs, dyn, k) == Encode(msgs, dyn)
  {
    hide EncodeAt;
    if k > 0 {
      SplitEncoding(msgs, dyn, k - 1);
      Regroup(EncodeUpTo(msgs, dyn, k - 1), EncodeAt(msgs, dyn, k - 1), EncodeFrom(msgs, dyn, k));
    }
  }

  // ----- START and STOP bits -----

  predicate HasStart(word: nat) { (word / 256) % 2 == 1 }

  predicate HasStop(word: nat) { (word / 512) % 2 == 1 }

  function Starts(words: seq<nat>): nat {
    if words == [] then 0 else (if HasStart(words[0]) then 1 else 0) + Starts(words[1..])
  }

  lemma {:induction false} StartsAppend(a: seq<nat>, b: seq<nat>)
    ensures Starts(a + b) == Starts(a) + Starts(b)
  {
    if a == [] {
      assert a + b == b;
    } else {
      StartsAppend(a[1..], b);
      assert (a + b)[1..] == a[1..] + b;
    }
  }

  lemma {:induction false} NoStarts(words: seq<nat>)
    requires forall j :: 0 <= j < |words| ==> !HasStart(words[j])
    ensures Starts(words) == 0
  {
    if words != [] {
      NoStarts(words[1..]);
    }
  }

  /** In dynamic mode a read asks for at most 255 bytes. */
  predicate ShortReads(msgs: seq<Msg>) {
    forall i :: 0 <= i < |msgs| ==> msgs[i].rd ==> msgs[i].len <= 255
  }

  /** The mode, in the source's three conditions: standard mode for a read on a controller
      whose dynamic reads are broken, for a read of more than 255 bytes, and for a block
      read; dynamic mode for every other list. */
  lemma DynamicModeIff(msgs: seq<Msg>, readBroken: bool)
    ensures UsesDynamic(msgs, readBroken) <==>
              && !(exists m :: m in msgs && m.rd && readBroken)
              && !(exists m :: m in msgs && m.rd && m.len > 255)
              && !(exists m :: m in msgs && m.recvLen)
  {
  }

  lemma DynamicModeHasShortReads(msgs: seq<Msg>, readBroken: bool)
    requires UsesDynamic(msgs, readBroken)
    ensures ShortReads(msgs)
  {
    forall i | 0 <= i < |msgs|
      ensures msgs[i].rd ==> msgs[i].len <= 255
    {
      assert !ForcesStandard(msgs[i], readBroken);
    }
  }

  /** The words of one message: its first word and no other has the START bit,
      and the STOP bit is on the final word exactly if the message is the last. */
  lemma MessageBits(m: Msg, last: bool)
    requires m.rd ==> m.len <= 255
    ensures var w := EncodeMsg(m, last, true);
            && w != []
            && (forall j :: 0 <= j < |w| ==> (HasStart(w[j]) <==> j == 0))
            && (forall j :: 0 <= j < |w| ==> (HasStop(w[j]) <==> last && j == |w| - 1))
  {
    var w := EncodeMsg(m, last, true);
    forall j | 0 <= j < |w|
      ensures HasStart(w[j]) <==> j == 0
      ensures HasStop(w[j]) <==> last && j == |w| - 1
    {
      if j > 0 && !m.rd {
        assert w[j] == DataWord(m, last, true, j - 1);
      }
    }
  }

  /** One START per message and exactly one STOP, on the very last word. */
  lemma {:induction false} StartsAndStops(msgs: seq<Msg>, k: nat)
    requires k < |msgs| && ShortReads(msgs)
    ensures var w := EncodeFrom(msgs, true, k);
            && w != []
            && Starts(w) == |msgs| - k
            && HasStart(w[0])
            && (forall j :: 0 <= j < |w| ==> (HasStop(w[j]) <==> j == |w| - 1))
    decreases |msgs| - k
  {
    var a := EncodeAt(msgs, true, k);
    MessageBits(msgs[k], k == |msgs| - 1);
    NoStarts(a[1..]);
    var b := EncodeFrom(msgs, true, k + 1);
    StartsAppend(a, b);
    if k + 1 < |msgs| {
      StartsAndStops(msgs, k + 1);
    }
  }

  // ----- The reader -----

  /** What one message looks like on the wire. */
  datatype Wire = WriteOf(addr: nat, data: seq<nat>) | ReadOf(addr: nat, len: nat)

  function OnWire(m: Msg): Wire {
    if m.rd then ReadOf(m.addr, m.len) else WriteOf(m.addr, seq(m.len, j requires 0 <= j => ByteAt(m, j)))
  }

  function AllOnWire(msgs: seq<Msg>, k: nat): seq<Wire>
    requires k <= |msgs|
    decreases |msgs| - k
  {
    if k == |msgs| then [] else [OnWire(msgs[k])] + AllOnWire(msgs, k + 1)
  }

  /** The number of leading words without the START bit. */
  function DataRun(words: seq<nat>): (n: nat)
    ensures n <= |words|
    ensures forall j :: 0 <= j < n ==> !HasStart(words[j])
    ensures n < |words| ==> HasStart(words[n])
  {
    if words == [] || HasStart(words[0]) then 0 else 1 + DataRun(words[1..])
  }

  function LowBytes(words: seq<nat>): (r: seq<nat>)
    ensures |r| == |words|
  {
    seq(|words|, j requires 0 <= j < |words| => words[j] % 256)
  }

  /** Reads dynamic-mode words back: a START word carries address and direction;
      a read is followed by its length, a write by its data bytes. */
  function Parse(words: seq<nat>): Option<seq<Wire>>
    decreases |words|
  {
    if words == [] then Some([])
    else if !HasStart(words[0]) then None
    else
      var addr := words[0] % 256 / 2;
      if words[0] % 2 == 1 then
        if |words| < 2 then None
        else
          var rest := Parse(words[2..]);
          if rest.None? then None else Some([ReadOf(addr, words[1] % 256)] + rest.value)
      else
        var n := DataRun(words[1..]);
        var rest := Parse(words[n + 1..]);
        if rest.None? then None
        else Some([WriteOf(addr, LowBytes(words[1..n + 1]))] + rest.value)
  }

  predicate SevenBit(msgs: seq<Msg>) {
    forall i :: 0 <= i < |msgs| ==> msgs[i].addr < 128
  }

  lemma FirstWordFields(m: Msg, last: bool)
    requires m.addr < 128
    ensures var w := FirstWord(m, last, true);
            HasStart(w) && w % 256 / 2 == m.addr && (w % 2 == 1 <==> m.rd)
  {
    var a := AddrByte(m);
    assert a == 2 * m.addr + (if m.rd then 1 else 0);
    assert OrBit(a, 256) == a + 256;
    assert OrBit(a + 256, 512) == a + 768;
  }

  lemma DataWordFields(m: Msg, last: bool, j: nat)
    ensures var w := DataWord(m, last, true, j);
            !HasStart(w) && w % 256 == ByteAt(m, j)
  {
    assert OrBit(ByteAt(m, j), 512) == ByteAt(m, j) + 512;
  }

  lemma LengthWordField(m: Msg)
    ensures OrBit(m.len, 512) % 256 == m.len % 256
  {
  }

  lemma ParseRead(m: Msg, last: bool, rest: seq<nat>)
    requires m.addr < 128 && m.rd
    requires Parse(rest).Some?
    ensures Parse(EncodeMsg(m, last, true) + rest)
         == Some([ReadOf(m.addr, m.len % 256)] + Parse(rest).value)
  {
    var w := EncodeMsg(m, last, true) + rest;
    FirstWordFields(m, last);
    LengthWordField(m);
    assert w[2..] == rest;
  }

  lemma ParseWrite(m: Msg, last: bool, rest: seq<nat>)
    requires m.addr < 128 && !m.rd
    requires rest == [] || HasStart(rest[0])
    requires Parse(rest).Some?
    ensures Parse(EncodeMsg(m, last, true) + rest) == Some([OnWire(m)] + Parse(rest).value)
  {
    var d := DataWords(m, last, true, m.len);
    forall j | 0 <= j < |d|
      ensures !HasStart(d[j]) && d[j] % 256 == ByteAt(m, j)
    {
      DataWordFields(m, last, j);
    }
    FirstWordFields(m, last);
    DataRunStops(d, rest);
    assert LowBytes(d) == OnWire(m).data;
    ParseWriteWords(FirstWord(m, last, true), d, rest);
    assert EncodeMsg(m, last, true) + rest == [FirstWord(m, last, true)] + d + rest;
  }

  lemma ParseWriteWords(first: nat, d: seq<nat>, rest: seq<nat>)
    requires HasStart(first) && first % 2 != 1
    requires DataRun(d + rest) == |d| && Parse(rest).Some?
    ensures Parse([first] + d + rest)
         == Some([WriteOf(first % 256 / 2, LowBytes(d))] + Parse(rest).value)
  {
    var w := [first] + d + rest;
    assert w[1..] == d + rest;
    assert w[|d| + 1..] == rest;
    assert w[1..|d| + 1] == d;
  }

  lemma DataRunStops(d: seq<nat>, rest: seq<nat>)
    requires forall j :: 0 <= j < |d| ==> !HasStart(d[j])
    requires rest == [] || HasStart(rest[0])
    ensures DataRun(d + rest) == |d|
  {
    var w := d + rest;
    assert forall j :: 0 <= j < |d| ==> w[j] == d[j];
    if rest != [] {
      assert w[|d|] == rest[0];
    }
  }

  /** The reader's account of one message. */
  function ReadBack(m: Msg): Wire {
    if m.rd then ReadOf(m.addr, m.len % 256) else OnWire(m)
  }

  function AllReadBack(msgs: seq<Msg>, k: nat): seq<Wire>
    requires k <= |msgs|
    decreases |msgs| - k
  {
    if k == |msgs| then [] else [ReadBack(msgs[k])] + AllReadBack(msgs, k + 1)
  }

  lemma ParseMsg(m: Msg, last: bool, rest: seq<nat>)
    requires m.addr < 128 && (rest == [] || HasStart(rest[0])) && Parse(rest).Some?
    ensures var w := EncodeMsg(m, last, true) + rest;
            HasStart(w[0]) && Parse(w) == Some([ReadBack(m)] + Parse(rest).value)
  {
    hide Parse;
    FirstWordFields(m, last);
    assert EncodeMsg(m, last, true)[0] == FirstWord(m, last, true);
    if m.rd {
      ParseRead(m, last, rest);
    } else {
      ParseWrite(m, last, rest);
    }
  }

  lemma ParseNothing()
    ensures Parse([]) == Some([])
  {
  }

  /** What the reader makes of an encoded list, whatever the read lengths. */
  lemma {:induction false} ParseEncoded(msgs: seq<Msg>, k: nat)
    requires k <= |msgs| && SevenBit(msgs)
    ensures var w := EncodeFrom(msgs, true, k);
            && (w == [] || HasStart(w[0]))
            && Parse(w) == Some(AllReadBack(msgs, k))
    decreases |msgs| - k
  {
    hide EncodeMsg, ReadBack, HasStart, Parse;
    if k == |msgs| {
      ParseNothing();
    } else {
      ParseEncoded(msgs, k + 1);
      ParseMsg(msgs[k], k == |msgs| - 1, EncodeFrom(msgs, true, k + 1));
    }
  }

  lemma {:induction false} ReadBackIsExact(msgs: seq<Msg>, k: nat)
    requires k <= |msgs|
    ensures AllReadBack(msgs, k) == AllOnWire(msgs, k)
       <==> forall i :: k <= i < |msgs| ==> ReadBack(msgs[i]) == OnWire(msgs[i])
    decreases |msgs| - k
  {
    if k < |msgs| {
      ReadBackIsExact(msgs, k + 1);
      var a, b := AllReadBack(msgs, k), AllOnWire(msgs, k);
      assert a[1..] == AllReadBack(msgs, k + 1) && a[0] == ReadBack(msgs[k]);
      assert b[1..] == AllOnWire(msgs, k + 1) && b[0] == OnWire(msgs[k]);
    }
  }

  /** The round trip: for 7-bit addresses the reader recovers the messages
      exactly when every read fits in one byte of length. */
  lemma RoundTrip(msgs: seq<Msg>)
    requires SevenBit(msgs)
    ensures Parse(Encode(msgs, true)) == Some(AllOnWire(msgs, 0)) <==> ShortReads(msgs)
  {
    hide Parse, EncodeFrom, AllReadBack, AllOnWire;
    ParseEncoded(msgs, 0);
    ReadBackIsExact(msgs, 0);
    forall i | 0 <= i < |msgs|
      ensures ReadBack(msgs[i]) == OnWire(msgs[i])
         <==> (msgs[i].rd ==> msgs[i].len <= 255)
    {
      assert msgs[i].len % 256 == msgs[i].len <==> msgs[i].len <= 255;
    }
  }
}
