// The keys of the annotation databases: NUL-separated fields.

module Decimals {
  function Digit(d: nat): (c: char)
    requires d < 10
    ensures '0' <= c <= '9' && c as int - '0' as int == d
  {
    '0' + d as char
  }

  // "%u"
  function Decimal(n: nat): (s: string)
    ensures s != [] && forall k :: 0 <= k < |s| ==> '0' <= s[k] <= '9'
  {
    if n < 10 then [Digit(n)] else Decimal(n / 10) + [Digit(n % 10)]
  }
}

module AnnotKeys {
  import opened Options
  import opened Decimals

  const NUL: char := '\0'
  const UINT_MOD: nat := 0x1_0000_0000
  const ANY_UID: nat := 0xffff_ffff

  predicate NulFree(s: string) {
    NUL !in s
  }

  // ---- make_key ----

  function FirstField(mboxname: string, uid: nat): string {
    if uid == 0 then mboxname else if uid == ANY_UID then "*" else Decimal(uid)
  }

  function MakeKey(mboxname: string, uid: nat, entry: string, userid: Option<string>): string {
    FirstField(mboxname, uid) + [NUL] + entry + if userid.Some? then [NUL] + userid.value + [NUL] else []
  }

  // ---- split_key ----

  datatype Parts = Parts(mboxname: string, uid: nat, entry: string, userid: Option<string>)

  // Where the field that starts at i ends: at a NUL or at the end of the key.
  function FieldEnd(key: string, i: nat): (j: nat)
    requires i <= |key|
    ensures i <= j <= |key|
    ensures j < |key| ==> key[j] == NUL
    ensures forall k :: i <= k < j ==> key[k] != NUL
    decreases |key| - i
  {
    if i == |key| || key[i] == NUL then i else FieldEnd(key, i + 1)
  }

  // The digits of a uid, in unsigned int arithmetic; other bytes count too.
  function Uid(s: string): (n: nat)
    ensures n < UINT_MOD
  {
    if s == [] then 0
    else (10 * Uid(s[..|s| - 1]) + (s[|s| - 1] as int - '0' as int)) % UINT_MOD
  }

  // The fields of a key; mailboxDb names the mailbox of a per-mailbox
  // database, whose keys start with a uid instead of a mailbox name.
  function SplitKey(mailboxDb: Option<string>, key: string): Option<Parts> {
    var p := FieldEnd(key, 0);
    if p == |key| then None
    else
      var first := key[..p];
      var q := FieldEnd(key, p + 1);
      var entry := key[p + 1..q];
      var userid := if q < |key| then Some(key[q + 1..FieldEnd(key, q + 1)]) else None;
      if mailboxDb.Some? then Some(Parts(mailboxDb.value, Uid(first), entry, userid))
      else Some(Parts(first, 0, entry, userid))
  }

  // ---- round trip ----

  lemma {:induction false} FieldEndIs(key: string, i: nat, j: nat)
    requires i <= j <= |key| && (j < |key| ==> key[j] == NUL)
    requires forall k :: i <= k < j ==> key[k] != NUL
    ensures FieldEnd(key, i) == j
    decreases j - i
  {
    if i < j {
      FieldEndIs(key, i + 1, j);
    }
  }

  lemma {:induction false} UidOfDecimal(n: nat)
    requires n < UINT_MOD
    ensures Uid(Decimal(n)) == n
  {
    hide Uid;
    if n >= 10 {
      UidOfDecimal(n / 10);
      OneMoreDigit(Decimal(n / 10), n % 10);
    } else {
      OneMoreDigit([], n);
      assert [] + [Digit(n)] == [Digit(n)];
    }
  }

  lemma OneMoreDigit(s: string, d: nat)
    requires d < 10
    ensures Uid(s + [Digit(d)]) == (10 * Uid(s) + d) % UINT_MOD
    ensures Uid([]) == 0
  {
    assert (s + [Digit(d)])[..|s|] == s;
  }

  lemma DecimalIsNulFree(n: nat)
    ensures NulFree(Decimal(n))
  {
  }

  // A NUL-free field of a key, in front of a NUL or of the end.
  lemma FieldAt(key: string, before: string, field: string, after: string)
    requires key == before + field + after && NulFree(field) && (after != [] ==> after[0] == NUL)
    ensures FieldEnd(key, |before|) == |before| + |field|
    ensures key[|before|..|before| + |field|] == field
  {
    forall k | |before| <= k < |before| + |field|
      ensures key[k] != NUL
    {
      assert key[k] == field[k - |before|];
    }
    FieldEndIs(key, |before|, |before| + |field|);
  }

  lemma SplitWithoutUser(mailboxDb: Option<string>, key: string, first: string, entry: string)
    requires NulFree(first) && NulFree(entry) && key == first + [NUL] + entry
    ensures SplitKey(mailboxDb, key) == Some(
      if mailboxDb.Some? then Parts(mailboxDb.value, Uid(first), entry, None) else Parts(first, 0, entry, None))
  {
    hide Uid, FieldEnd;
    assert key == [] + first + ([NUL] + entry);
    FieldAt(key, [], first, [NUL] + entry);
    assert key == (first + [NUL]) + entry + [];
    FieldAt(key, first + [NUL], entry, []);
  }

  lemma FirstFieldAt(key: string, first: string, rest: string)
    requires NulFree(first) && key == first + [NUL] + rest
    ensures FieldEnd(key, 0) == |first| && key[..|first|] == first
  {
    assert key == [] + first + ([NUL] + rest);
    FieldAt(key, [], first, [NUL] + rest);
  }

  lemma SecondFieldAt(key: string, first: string, entry: string, tail: string)
    requires NulFree(entry) && key == first + [NUL] + entry + ([NUL] + tail)
    ensures FieldEnd(key, |first| + 1) == |first| + 1 + |entry|
    ensures key[|first| + 1..|first| + 1 + |entry|] == entry
  {
    assert key == (first + [NUL]) + entry + ([NUL] + tail);
    FieldAt(key, first + [NUL], entry, [NUL] + tail);
  }

  lemma UserFieldAt(key: string, before: string, userid: string)
    requires NulFree(userid) && key == before + ([NUL] + userid + [NUL])
    ensures FieldEnd(key, |before| + 1) == |before| + 1 + |userid|
    ensures key[|before| + 1..|before| + 1 + |userid|] == userid
  {
    assert key == (before + [NUL]) + userid + [NUL];
    FieldAt(key, before + [NUL], userid, [NUL]);
  }

  lemma Regrouped(first: string, entry: string, userid: string)
    ensures var key := first + [NUL] + entry + ([NUL] + userid + [NUL]);
      && key == first + [NUL] + (entry + ([NUL] + userid + [NUL]))
      && key == first + [NUL] + entry + ([NUL] + (userid + [NUL]))
      && |key| == |first| + |entry| + |userid| + 3 && key[|first| + 1 + |entry|] == NUL
  {
    assert [NUL] + userid + [NUL] == [NUL] + (userid + [NUL]);
  }

  function PartsOf(mailboxDb: Option<string>, first: string, entry: string, userid: Option<string>): Parts {
    if mailboxDb.Some? then Parts(mailboxDb.value, Uid(first), entry, userid) else Parts(first, 0, entry, userid)
  }

  lemma PartsOfFields(mailboxDb: Option<string>, first: string, entry: string, userid: string)
    ensures PartsOf(mailboxDb, first, entry, Some(userid)) ==
      if mailboxDb.Some? then Parts(mailboxDb.value, Uid(first), entry, Some(userid))
      else Parts(first, 0, entry, Some(userid))
  {
    hide Uid;
  }

  lemma SplitAt(mailboxDb: Option<string>, key: string, p: nat, q: nat, u: nat)
    requires p < |key| && FieldEnd(key, 0) == p
    requires p + 1 <= q < |key| && FieldEnd(key, p + 1) == q
    requires q + 1 <= u <= |key| && FieldEnd(key, q + 1) == u
    ensures SplitKey(mailboxDb, key) == Some(PartsOf(mailboxDb, key[..p], key[p + 1..q], Some(key[q + 1..u])))
  {
    hide Uid, FieldEnd;
  }

  // The parts, from where the three fields end.
  lemma PartsFromEnds(mailboxDb: Option<string>, key: string, p: nat, q: nat,
                      first: string, entry: string, userid: string)
    requires p < |key| && FieldEnd(key, 0) == p && key[..p] == first
    requires p + 1 <= q < |key| && FieldEnd(key, p + 1) == q && key[p + 1..q] == entry
    requires key[q + 1..FieldEnd(key, q + 1)] == userid
    ensures SplitKey(mailboxDb, key) == Some(
      if mailboxDb.Some? then Parts(mailboxDb.value, Uid(first), entry, Some(userid))
      else Parts(first, 0, entry, Some(userid)))
  {
    hide Uid, FieldEnd, SplitKey, PartsOf;
    SplitAt(mailboxDb, key, p, q, FieldEnd(key, q + 1));
    PartsOfFields(mailboxDb, first, entry, userid);
  }

  lemma SplitWithUser(mailboxDb: Option<string>, key: string, first: string, entry: string, userid: string)
    requires NulFree(first) && NulFree(entry) && NulFree(userid)
    requires key == first + [NUL] + entry + ([NUL] + userid + [NUL])
    ensures SplitKey(mailboxDb, key) == Some(
      if mailboxDb.Some? then Parts(mailboxDb.value, Uid(first), entry, Some(userid))
      else Parts(first, 0, entry, Some(userid)))
  {
    hide Uid, FieldEnd, NulFree, SplitKey;
    Regrouped(first, entry, userid);
    FirstFieldAt(key, first, entry + ([NUL] + userid + [NUL]));
    SecondFieldAt(key, first, entry, userid + [NUL]);
    UserFieldAt(key, first + [NUL] + entry, userid);
    PartsFromEnds(mailboxDb, key, |first|, |first| + 1 + |entry|, first, entry, userid);
  }

  // Splitting a key made of NUL-free fields, whichever they are.
  lemma SplitFields(mailboxDb: Option<string>, first: string, entry: string, userid: Option<string>)
    requires NulFree(first) && NulFree(entry) && (userid.Some? ==> NulFree(userid.value))
    ensures var key := first + [NUL] + entry + if userid.Some? then [NUL] + userid.value + [NUL] else [];
      SplitKey(mailboxDb, key) == Some(
        if mailboxDb.Some? then Parts(mailboxDb.value, Uid(first), entry, userid) else Parts(first, 0, entry, userid))
  {
    hide SplitKey, Uid;
    if userid.Some? {
      SplitWithUser(mailboxDb, first + [NUL] + entry + ([NUL] + userid.value + [NUL]), first, entry, userid.value);
    } else {
      assert first + [NUL] + entry + [] == first + [NUL] + entry;
      SplitWithoutUser(mailboxDb, first + [NUL] + entry, first, entry);
    }
  }

  // In the global database a key splits into what it was made of; a missing
  // userid is not confused with an empty one.
  lemma GlobalKeyRoundTrip(mboxname: string, entry: string, userid: Option<string>)
    requires NulFree(mboxname) && NulFree(entry) && (userid.Some? ==> NulFree(userid.value))
    ensures SplitKey(None, MakeKey(mboxname, 0, entry, userid)) == Some(Parts(mboxname, 0, entry, userid))
  {
    SplitFields(None, mboxname, entry, userid);
  }

  // In a per-mailbox database likewise, for every uid but the wildcard.
  lemma MessageKeyRoundTrip(mboxname: string, uid: nat, entry: string, userid: Option<string>)
    requires 0 < uid < ANY_UID
    requires NulFree(entry) && (userid.Some? ==> NulFree(userid.value))
    ensures SplitKey(Some(mboxname), MakeKey(mboxname, uid, entry, userid)) == Some(Parts(mboxname, uid, entry, userid))
  {
    DecimalIsNulFree(uid);
    UidOfDecimal(uid);
    SplitFields(Some(mboxname), Decimal(uid), entry, userid);
  }

  // Hence two keys of the global database are equal only if all their fields
  // are.
  lemma GlobalKeysAreInjective(mboxname: string, entry: string, userid: Option<string>,
                               mboxname': string, entry': string, userid': Option<string>)
    requires NulFree(mboxname) && NulFree(entry) && (userid.Some? ==> NulFree(userid.value))
    requires NulFree(mboxname') && NulFree(entry') && (userid'.Some? ==> NulFree(userid'.value))
    requires MakeKey(mboxname, 0, entry, userid) == MakeKey(mboxname', 0, entry', userid')
    ensures mboxname == mboxname' && entry == entry' && userid == userid'
  {
    hide NulFree, MakeKey, SplitKey;
    GlobalKeyRoundTrip(mboxname, entry, userid);
    GlobalKeyRoundTrip(mboxname', entry', userid');
  }

  // Likewise two keys of the database of one mailbox.
  lemma KeysAreInjective(mboxname: string, uid: nat, entry: string, userid: Option<string>,
                         uid': nat, entry': string, userid': Option<string>)
    requires 0 < uid < ANY_UID && 0 < uid' < ANY_UID
    requires NulFree(entry) && (userid.Some? ==> NulFree(userid.value))
    requires NulFree(entry') && (userid'.Some? ==> NulFree(userid'.value))
    requires MakeKey(mboxname, uid, entry, userid) == MakeKey(mboxname, uid', entry', userid')
    ensures uid == uid' && entry == entry' && userid == userid'
  {
    MessageKeyRoundTrip(mboxname, uid, entry, userid);
    MessageKeyRoundTrip(mboxname, uid', entry', userid');
  }

  // ---- the key buffer ----

  // strlcpy into the buffer at an offset, with room for size bytes.
  method Strlcpy(dst: array<char>, at: nat, src: string, size: nat)
    requires |src| < size && at + size <= dst.Length
    modifies dst
    ensures dst[..at] == old(dst[..at])
    ensures dst[at..at + |src|] == src && dst[at + |src|] == NUL
  {
    var k := 0;
    while k < |src|
      invariant 0 <= k <= |src|
      invariant dst[..at] == old(dst[..at])
      invariant dst[at..at + k] == src[..k]
    {
      dst[at + k] := src[k];
      k := k + 1;
    }
    dst[at + k] := NUL;
  }

  // A field behind what is there already; returns where it ends.
  method CopyField(key: array<char>, at: nat, ghost before: string, field: string) returns (end: nat)
    requires at + |field| < key.Length && |before| == at && key[..at] == before
    modifies key
    ensures end == at + |field| && key[..end] == before + field && key[..end + 1] == before + field + [NUL]
  {
    Strlcpy(key, at, field, key.Length - at);
    end := at + |field|;
    assert key[..end] == key[..at] + key[at..end];
    assert key[..end + 1] == key[..end] + [key[end]];
  }

  // make_key: writes the key and returns its length. The buffer has room for
  // the key and a NUL behind it, as its callers see to.
  method WriteKey(mboxname: string, uid: nat, entry: string, userid: Option<string>, key: array<char>)
      returns (keylen: nat)
    requires |MakeKey(mboxname, uid, entry, userid)| < key.Length
    modifies key
    ensures keylen <= key.Length && key[..keylen] == MakeKey(mboxname, uid, entry, userid)
  {
    hide FirstField;
    var first := FirstField(mboxname, uid);
    keylen := CopyField(key, 0, [], first);
    keylen := CopyField(key, keylen + 1, first + [NUL], entry);
    if userid.Some? {
      keylen := CopyField(key, keylen + 1, first + [NUL] + entry + [NUL], userid.value);
      Regrouped(first, entry, userid.value);
      keylen := keylen + 1;
    }
  }

  // Steps over the bytes of a field.
  method SkipField(key: string, start: nat) returns (p: nat)
    requires start <= |key|
    ensures p == FieldEnd(key, start)
  {
    p := start;
    while p < |key| && key[p] != NUL
      invariant start <= p <= |key|
      invariant forall k :: start <= k < p ==> key[k] != NUL
    {
      p := p + 1;
    }
    FieldEndIs(key, start, p);
  }

  // Reads the digits of the first field.
  method ReadUid(key: string) returns (p: nat, uid: nat)
    ensures p == FieldEnd(key, 0) && uid == Uid(key[..p])
  {
    p, uid := 0, 0;
    while p < |key| && key[p] != NUL
      invariant 0 <= p <= |key|
      invariant forall k :: 0 <= k < p ==> key[k] != NUL
      invariant uid == Uid(key[..p])
    {
      assert key[..p + 1][..p] == key[..p];
      uid := (10 * uid + (key[p] as int - '0' as int)) % UINT_MOD;
      p := p + 1;
    }
    FieldEndIs(key, 0, p);
  }

  // split_key
  method ReadKey(mailboxDb: Option<string>, key: string) returns (r: Option<Parts>)
    ensures r == SplitKey(mailboxDb, key)
  {
    hide Uid, FieldEnd;
    var p := 0;
    var uid := 0;
    var mboxname: string;
    if mailboxDb.Some? {
      mboxname := mailboxDb.value;
      p, uid := ReadUid(key);
    } else {
      p := SkipField(key, 0);
      mboxname := key[..p];
    }
    if p == |key| {
      return None;
    }
    var q := SkipField(key, p + 1);
    var userid := None;
    if q < |key| {
      var u := SkipField(key, q + 1);
      userid := Some(key[q + 1..u]);
    }
    r := Some(Parts(mboxname, uid, key[p + 1..q], userid));
  }
}
