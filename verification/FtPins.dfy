/**
 The transmit buffer that all peripherals of a channel share: each writes only
 its own pins of every byte.
 */
module FtPins {
  import opened Bits

  // (old & mask) | value: the pins of the mask are those of other devices.
  function MaskWrite(before: Byte, mask: Byte, value: Byte): Byte {
    Or(And(before, mask), value)
  }

  // The value stays off the pins of others.
  predicate Within(mask: Byte, value: Byte) {
    forall p :: 0 <= p < 8 && mask[p] ==> !value[p]
  }

  // A wave written to the front of the buffer; the rest stays.
  ghost predicate Masked(before: seq<Byte>, after: seq<Byte>, mask: Byte, wave: seq<Byte>) {
    && |wave| <= |before| == |after|
    && forall i :: 0 <= i < |before| ==>
         after[i] == if i < |wave| then MaskWrite(before[i], mask, wave[i]) else before[i]
  }

  function Repeat(b: Byte, n: nat): (r: seq<Byte>)
    ensures |r| == n
  {
    seq(n, _ => b)
  }

  // c bytes for every unit of a wave.
  function Stretch(units: seq<Byte>, c: nat): seq<Byte> {
    if units == [] then [] else Repeat(units[0], c) + Stretch(units[1..], c)
  }

  lemma {:induction false} StretchLength(units: seq<Byte>, c: nat)
    ensures |Stretch(units, c)| == |units| * c
  {
    if units == [] {
    } else {
      StretchLength(units[1..], c);
      assert |units| * c == (|units| - 1) * c + c;
    }
  }

  lemma {:induction false} StretchAppend(a: seq<Byte>, b: seq<Byte>, c: nat)
    ensures Stretch(a + b, c) == Stretch(a, c) + Stretch(b, c)
    decreases |a|
  {
    if a == [] {
      assert a + b == b;
    } else {
      assert (a + b)[0] == a[0] && (a + b)[1..] == a[1..] + b;
      StretchAppend(a[1..], b, c);
      assert Repeat(a[0], c) + (Stretch(a[1..], c) + Stretch(b, c)) == Stretch(a, c) + Stretch(b, c);
    }
  }

  lemma StretchNext(units: seq<Byte>, b: Byte, c: nat)
    ensures Stretch(units + [b], c) == Stretch(units, c) + Repeat(b, c)
  {
    StretchAppend(units, [b], c);
    assert [b][1..] == [] && Stretch([b], c) == Repeat(b, c) + [];
    assert Repeat(b, c) + [] == Repeat(b, c);
  }

  lemma {:induction false} StretchWithin(mask: Byte, units: seq<Byte>, c: nat, k: nat)
    requires (forall u :: 0 <= u < |units| ==> Within(mask, units[u])) && k < |Stretch(units, c)|
    ensures Within(mask, Stretch(units, c)[k])
    decreases |units|
  {
    if k < c {
    } else {
      assert forall u :: 0 <= u < |units| - 1 ==> units[1..][u] == units[u + 1];
      StretchWithin(mask, units[1..], c, k - c);
    }
  }

  lemma NothingWritten(buff: seq<Byte>, mask: Byte)
    ensures Masked(buff, buff, mask, [])
  {}

  /** The inner loops: c copies of a unit, from position i. */
  method WriteUnit(buff: array<Byte>, i: nat, c: nat, mask: Byte, b: Byte,
                   ghost before: seq<Byte>, ghost wave: seq<Byte>)
    requires i + c <= buff.Length && |wave| == i && Masked(before, buff[..], mask, wave)
    modifies buff
    ensures Masked(before, buff[..], mask, wave + Repeat(b, c))
  {
    var j := 0;
    while j < c
      invariant 0 <= j <= c
      invariant Masked(before, buff[..], mask, wave + Repeat(b, j))
    {
      buff[i + j] := MaskWrite(buff[i + j], mask, b);
      j := j + 1;
    }
  }

  // The same value over the first n bytes.
  method WriteAll(buff: array<Byte>, n: nat, mask: Byte, b: Byte)
    requires n <= buff.Length
    modifies buff
    ensures Masked(old(buff[..]), buff[..], mask, Repeat(b, n))
  {
    NothingWritten(buff[..], mask);
    WriteUnit(buff, 0, n, mask, b, buff[..], []);
    assert [] + Repeat(b, n) == Repeat(b, n);
  }

  // ------------------------------------------------------------- isolation

  // What a device does in one pass over the buffer.
  datatype Writer = Writer(mask: Byte, wave: seq<Byte>)

  ghost predicate WriterOk(w: Writer, n: nat) {
    |w.wave| <= n && forall i :: 0 <= i < |w.wave| ==> Within(w.mask, w.wave[i])
  }

  predicate Owns(w: Writer, p: int)
    requires 0 <= p < 8
  {
    !w.mask[p]
  }

  // No pin has two owners.
  ghost predicate Disjoint(ws: seq<Writer>) {
    forall i, j, p :: 0 <= i < j < |ws| && 0 <= p < 8 ==> !(Owns(ws[i], p) && Owns(ws[j], p))
  }

  function Pass(buff: seq<Byte>, w: Writer): (r: seq<Byte>)
    ensures |r| == |buff|
  {
    seq(|buff|, i requires 0 <= i < |buff| =>
      if i < |w.wave| then MaskWrite(buff[i], w.mask, w.wave[i]) else buff[i])
  }

  // All devices, one after the other.
  function Passes(buff: seq<Byte>, ws: seq<Writer>): (r: seq<Byte>)
    ensures |r| == |buff|
    decreases |ws|
  {
    if ws == [] then buff else Passes(Pass(buff, ws[0]), ws[1..])
  }

  /** A masked write by a method is the pass of its device. */
  lemma MaskedIsPass(before: seq<Byte>, after: seq<Byte>, w: Writer)
    requires Masked(before, after, w.mask, w.wave)
    ensures after == Pass(before, w)
  {}

  // A pass leaves the pins of others as they were.
  lemma PassElsewhere(buff: seq<Byte>, w: Writer, i: nat, p: nat)
    requires WriterOk(w, |buff|) && i < |buff| && p < 8 && !Owns(w, p)
    ensures Pass(buff, w)[i][p] == buff[i][p]
  {
    if i < |w.wave| { assert Within(w.mask, w.wave[i]); }
  }

  // A pass decides its own pins.
  lemma PassHere(buff: seq<Byte>, w: Writer, i: nat, p: nat)
    requires i < |buff| && p < 8 && Owns(w, p)
    ensures Pass(buff, w)[i][p] == if i < |w.wave| then w.wave[i][p] else buff[i][p]
  {}

  lemma {:induction false} PassesElsewhere(buff: seq<Byte>, ws: seq<Writer>, i: nat, p: nat)
    requires i < |buff| && p < 8
    requires forall k :: 0 <= k < |ws| ==> WriterOk(ws[k], |buff|) && !Owns(ws[k], p)
    ensures Passes(buff, ws)[i][p] == buff[i][p]
    decreases |ws|
  {
    if ws == [] {
    } else {
      PassElsewhere(buff, ws[0], i, p);
      forall k | 0 <= k < |ws| - 1 ensures WriterOk(ws[1..][k], |buff|) && !Owns(ws[1..][k], p) {
        assert ws[1..][k] == ws[k + 1];
      }
      PassesElsewhere(Pass(buff, ws[0]), ws[1..], i, p);
    }
  }

  /** Pin isolation: after all devices have had their turn, every pin that a
      device owns is what that device alone would have written, and a pin that
      nobody owns is unchanged. */
  lemma {:induction false} Isolation(buff: seq<Byte>, ws: seq<Writer>, k: nat, i: nat, p: nat)
    requires Disjoint(ws) && forall j :: 0 <= j < |ws| ==> WriterOk(ws[j], |buff|)
    requires k < |ws| && i < |buff| && p < 8
    ensures Owns(ws[k], p) ==> Passes(buff, ws)[i][p] == Pass(buff, ws[k])[i][p]
    ensures (forall j :: 0 <= j < |ws| ==> !Owns(ws[j], p)) ==> Passes(buff, ws)[i][p] == buff[i][p]
    decreases |ws|
  {
    if forall j :: 0 <= j < |ws| ==> !Owns(ws[j], p) {
      PassesElsewhere(buff, ws, i, p);
    } else if !Owns(ws[k], p) {
    } else {
      var rest := ws[1..];
      assert forall j :: 0 <= j < |rest| ==> rest[j] == ws[j + 1];
      if k == 0 {
        PassesElsewhere(Pass(buff, ws[0]), rest, i, p);
      } else {
        Isolation(Pass(buff, ws[0]), rest, k - 1, i, p);
        assert !Owns(ws[0], p);
        PassElsewhere(buff, ws[0], i, p);
        PassHere(buff, ws[k], i, p);
        PassHere(Pass(buff, ws[0]), ws[k], i, p);
      }
    }
  }

  /** The order of the devices makes no difference. */
  lemma OrderIndependent(buff: seq<Byte>, ws: seq<Writer>, ws': seq<Writer>)
    requires Disjoint(ws) && multiset(ws) == multiset(ws')
    requires forall j :: 0 <= j < |ws| ==> WriterOk(ws[j], |buff|)
    ensures Passes(buff, ws) == Passes(buff, ws')
  {
    forall j | 0 <= j < |ws'| ensures WriterOk(ws'[j], |buff|) { SameMember(ws', ws, j); }
    DisjointPermuted(ws, ws');
    forall i, p | 0 <= i < |buff| && 0 <= p < 8 ensures Passes(buff, ws)[i][p] == Passes(buff, ws')[i][p] {
      if k :| 0 <= k < |ws| && Owns(ws[k], p) {
        SameMember(ws, ws', k);
        var k' :| 0 <= k' < |ws'| && ws'[k'] == ws[k];
        Isolation(buff, ws, k, i, p);
        Isolation(buff, ws', k', i, p);
      } else {
        forall j | 0 <= j < |ws'| ensures !Owns(ws'[j], p) { SameMember(ws', ws, j); }
        PassesElsewhere(buff, ws, i, p);
        PassesElsewhere(buff, ws', i, p);
      }
    }
    forall i | 0 <= i < |buff| ensures Passes(buff, ws)[i] == Passes(buff, ws')[i] {
      assert forall p :: 0 <= p < 8 ==> Passes(buff, ws)[i][p] == Passes(buff, ws')[i][p];
    }
  }

  lemma SameMember<T>(a: seq<T>, b: seq<T>, k: nat)
    requires multiset(a) == multiset(b) && k < |a|
    ensures exists k' :: 0 <= k' < |b| && b[k'] == a[k]
  {
    assert a[k] in multiset(b);
  }

  lemma DisjointPermuted(ws: seq<Writer>, ws': seq<Writer>)
    requires Disjoint(ws) && multiset(ws) == multiset(ws')
    ensures Disjoint(ws')
  {
    forall i, j, p | 0 <= i < j < |ws'| && 0 <= p < 8 ensures !(Owns(ws'[i], p) && Owns(ws'[j], p)) {
      var i', j' := TwoPlaces(ws', ws, i, j);
      assert i' < j' ==> !(Owns(ws[i'], p) && Owns(ws[j'], p));
      assert j' < i' ==> !(Owns(ws[j'], p) && Owns(ws[i'], p));
    }
  }

  lemma Without<T>(a: seq<T>, k: nat)
    requires k < |a|
    ensures multiset(a[..k] + a[k + 1..]) == multiset(a) - multiset{a[k]}
  {
    assert a == a[..k] + [a[k]] + a[k + 1..];
  }

  // Two members of a list have two places in any permutation of it.
  lemma TwoPlaces<T>(a: seq<T>, b: seq<T>, i: nat, j: nat) returns (i': nat, j': nat)
    requires multiset(a) == multiset(b) && i < j < |a|
    ensures i' < |b| && j' < |b| && i' != j' && b[i'] == a[i] && b[j'] == a[j]
  {
    SameMember(a, b, i);
    i' :| 0 <= i' < |b| && b[i'] == a[i];
    Without(a, i);
    Without(b, i');
    var restA, restB := a[..i] + a[i + 1..], b[..i'] + b[i' + 1..];
    assert restA[j - 1] == a[j];
    SameMember(restA, restB, j - 1);
    var k :| 0 <= k < |restB| && restB[k] == a[j];
    j' := if k < i' then k else k + 1;
  }
}
