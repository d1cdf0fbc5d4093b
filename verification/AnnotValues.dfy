// The binary record of an annotation: length, value, modseq and flags, with
// the fake fields for older versions in between.

module AnnotValues {
  import opened Options

  type byte = n: int | 0 <= n < 256

  // The record splits into fields of an unsigned long; the machine is a
  // little-endian one with eight of them.
  const LONG: nat := 8
  const UINT_MOD: nat := 0x1_0000_0000
  const MODSEQ_MOD: nat := 0x1_0000_0000_0000_0000

  // "text/plain"
  const CONTENT_TYPE: seq<byte> := [116, 101, 120, 116, 47, 112, 108, 97, 105, 110]

  datatype Metadata = Metadata(modseq: nat, flags: byte)

  const FLAG_DELETED: nat := 1

  predicate Deleted(flags: byte) {
    flags % 2 == FLAG_DELETED
  }

  function Pow256(k: nat): (p: nat)
    ensures p > 0
  {
    if k == 0 then 1 else 256 * Pow256(k - 1)
  }

  // k bytes in network order, of n modulo 256 to the k
  function BigEndian(n: nat, k: nat): (bs: seq<byte>)
    ensures |bs| == k
  {
    if k == 0 then [] else BigEndian(n / 256, k - 1) + [n % 256]
  }

  function FromBigEndian(bs: seq<byte>): nat {
    if bs == [] then 0 else 256 * FromBigEndian(bs[..|bs| - 1]) + bs[|bs| - 1]
  }

  lemma {:induction false} BigEndianRoundTrip(n: nat, k: nat)
    requires n < Pow256(k)
    ensures FromBigEndian(BigEndian(n, k)) == n
  {
    if k != 0 {
      BigEndianRoundTrip(n / 256, k - 1);
      assert BigEndian(n, k)[..k - 1] == BigEndian(n / 256, k - 1);
    }
  }

  // htonl of a length, stored as an unsigned long
  function LengthField(n: nat): (bs: seq<byte>)
    ensures |bs| == LONG
  {
    BigEndian(n % UINT_MOD, 4) + [0, 0, 0, 0]
  }

  // ntohl of an unsigned long
  function FieldLength(bs: seq<byte>): nat
    requires |bs| == LONG
  {
    FromBigEndian(bs[..4])
  }

  // make_entry
  function MakeEntry(value: seq<byte>, modseq: nat, flags: byte): seq<byte> {
    LengthField(|value|) + value + [0] + CONTENT_TYPE + [0] + [0, 0, 0, 0, 0, 0, 0, 0]
    + BigEndian(modseq % MODSEQ_MOD, 8) + [flags]
  }

  // strlen from i; None if there is no NUL before the end of the data.
  function StrEnd(data: seq<byte>, i: nat): (r: Option<nat>)
    requires i <= |data|
    ensures r.Some? ==> i <= r.value < |data| && data[r.value] == 0
    decreases |data| - i
  {
    if i == |data| then None else if data[i] == 0 then Some(i) else StrEnd(data, i + 1)
  }

  datatype Attribs = Attribs(value: seq<byte>, mdata: Metadata)

  // split_attribs. None stands for no data, or data so short that the original
  // would read beyond its end.
  function SplitAttribs(data: seq<byte>): Option<Attribs> {
    if |data| < LONG || |data| < LONG + FieldLength(data[..LONG]) then None
    else
      var len := FieldLength(data[..LONG]);
      var value := data[LONG..LONG + len];
      var tmps := LONG + len + 1;
      if tmps >= |data| then Some(Attribs(value, Metadata(0, 0)))
      else
        var nul := StrEnd(data, tmps);
        if nul.None? then None
        else
          var rest := nul.value + 1 + LONG;
          if rest >= |data| then Some(Attribs(value, Metadata(0, 0)))
          else if rest + 8 > |data| then None
          else
            var modseq := FromBigEndian(data[rest..rest + 8]);
            if rest + 8 == |data| then Some(Attribs(value, Metadata(modseq, 0)))
            else
              var flags := data[rest + 8];
              Some(Attribs(if Deleted(flags) then [] else value, Metadata(modseq, flags)))
  }

  lemma {:induction false} StrEndIs(data: seq<byte>, i: nat, j: nat)
    requires i <= j < |data| && data[j] == 0 && forall k :: i <= k < j ==> data[k] != 0
    ensures StrEnd(data, i) == Some(j)
    decreases j - i
  {
    if i < j {
      StrEndIs(data, i + 1, j);
    }
  }

  lemma LengthRoundTrip(n: nat)
    requires n < UINT_MOD
    ensures FieldLength(LengthField(n)) == n
  {
    assert Pow256(4) == UINT_MOD by {
      assert Pow256(1) == 256 && Pow256(2) == 65536;
    }
    BigEndianRoundTrip(n, 4);
    assert LengthField(n)[..4] == BigEndian(n, 4);
  }

  lemma ModseqRoundTrip(n: nat)
    requires n < MODSEQ_MOD
    ensures FromBigEndian(BigEndian(n, 8)) == n
  {
    assert Pow256(2) == 65536 && Pow256(4) == UINT_MOD;
    assert Pow256(6) == 65536 * UINT_MOD;
    assert Pow256(8) == MODSEQ_MOD;
    BigEndianRoundTrip(n, 8);
  }

  // Where the fields of an entry are.
  lemma EntryLayout(value: seq<byte>, modseq: nat, flags: byte)
    ensures var data := MakeEntry(value, modseq, flags);
      var n := |value|;
      && |data| == n + 37
      && data[..LONG] == LengthField(n)
      && data[LONG..LONG + n] == value
      && data[n + 19] == 0
      && (forall k :: n + 9 <= k < n + 19 ==> data[k] != 0)
      && data[n + 28..n + 36] == BigEndian(modseq % MODSEQ_MOD, 8)
      && data[n + 36] == flags
  {
    var data := MakeEntry(value, modseq, flags);
    var front := LengthField(|value|) + value + [0];
    forall k | |value| + 9 <= k < |value| + 19
      ensures data[k] == CONTENT_TYPE[k - |value| - 9] != 0
    {
    }
  }

  // What is written reads back: value, modseq and flags, for values with any
  // bytes in them. A deleted entry reads as empty.
  lemma EntryRoundTrip(value: seq<byte>, modseq: nat, flags: byte)
    requires |value| < UINT_MOD && modseq < MODSEQ_MOD
    ensures SplitAttribs(MakeEntry(value, modseq, flags))
         == Some(Attribs(if Deleted(flags) then [] else value, Metadata(modseq, flags)))
  {
    var data := MakeEntry(value, modseq, flags);
    EntryLayout(value, modseq, flags);
    hide MakeEntry, StrEnd, BigEndian, FromBigEndian, LengthField, FieldLength;
    LengthRoundTrip(|value|);
    StrEndIs(data, |value| + 9, |value| + 19);
    ModseqRoundTrip(modseq);
    assert modseq % MODSEQ_MOD == modseq;
  }
}
