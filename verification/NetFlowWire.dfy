/** Export messages on the wire: sets, templates and records, and how a collector reads them. */
module NetFlowWire {
  import opened Bytes
  import opened JsonTree

  // ----- numbers -----

  /** A number in network order. */
  function Be(n: nat, k: nat): (r: seq<byte>)
    ensures |r| == k
  {
    if k == 0 then [] else Be(n / 256, k - 1) + [n % 256]
  }

  lemma {:induction false} NumberRead(n: nat, k: nat)
    requires n < Pow256(k)
    ensures Number(Be(n, k)) == n
  {
    if k > 0 {
      NumberRead(n / 256, k - 1);
      assert Be(n, k)[..k - 1] == Be(n / 256, k - 1);
    }
  }

  function U16(n: nat): (r: seq<byte>)
    ensures |r| == 2
  {
    Be(n, 2)
  }

  lemma {:induction false} U16Read(n: nat)
    requires n < 0x1_0000
    ensures Number(U16(n)) == n
  {
    assert Pow256(2) == 256 * Pow256(1) == 65536;
    NumberRead(n, 2);
  }

  function Concat(parts: seq<seq<byte>>): (r: seq<byte>) {
    if |parts| == 0 then [] else Concat(parts[..|parts| - 1]) + parts[|parts| - 1]
  }

  function Zeros(n: nat): (r: seq<byte>)
    ensures |r| == n
  {
    seq(n, i => 0)
  }

  lemma Pieces(a: seq<byte>, b: seq<byte>, c: seq<byte>)
    ensures var s := a + (b + c);
            s[..|a|] == a && s[|a|..|a| + |b|] == b && s[|a| + |b|..] == c && s == a + b + c
  {
  }

  // ----- sets -----

  datatype RawSet = RawSet(id: nat, body: seq<byte>)

  function SetBytes(id: nat, body: seq<byte>): (r: seq<byte>)
    ensures |r| == 4 + |body|
  {
    U16(id) + U16(4 + |body|) + body
  }

  /** The sets of a message, if they fill it exactly. */
  function ParseSets(b: seq<byte>): (r: Option<seq<RawSet>>)
    decreases |b|
  {
    if |b| == 0 then Some([])
    else if |b| < 4 then None
    else
      var len := Number(b[2..4]);
      if len < 4 || len > |b| then None
      else
        var rest := ParseSets(b[len..]);
        if rest.None? then None else Some([RawSet(Number(b[..2]), b[4..len])] + rest.value)
  }

  predicate WfSet(s: RawSet) {
    s.id < 0x1_0000 && |s.body| + 4 < 0x1_0000
  }

  function AllSets(sets: seq<RawSet>): (r: seq<byte>) {
    if |sets| == 0 then [] else SetBytes(sets[0].id, sets[0].body) + AllSets(sets[1..])
  }

  lemma SetParts(id: nat, body: seq<byte>, rest: seq<byte>)
    ensures var b := SetBytes(id, body) + rest;
            && b[..2] == U16(id) && b[2..4] == U16(4 + |body|)
            && b[4..4 + |body|] == body && b[4 + |body|..] == rest
  {
  }

  /** Sets are read back one for one. */
  lemma {:induction false} SetsRead(sets: seq<RawSet>)
    requires forall i | 0 <= i < |sets| :: WfSet(sets[i])
    ensures ParseSets(AllSets(sets)) == Some(sets)
  {
    if |sets| > 0 {
      var s := sets[0];
      assert WfSet(s);
      SetParts(s.id, s.body, AllSets(sets[1..]));
      U16Read(s.id);
      U16Read(4 + |s.body|);
      SetsRead(sets[1..]);
      assert [s] + sets[1..] == sets;
    }
  }

  // ----- templates -----

  datatype Field = Field(kind: nat, len: nat)

  function FieldBytes(fs: seq<Field>): (r: seq<byte>)
    ensures |r| == 4 * |fs|
  {
    if |fs| == 0 then [] else FieldBytes(fs[..|fs| - 1]) + (U16(fs[|fs| - 1].kind) + U16(fs[|fs| - 1].len))
  }

  function TemplateBody(id: nat, fs: seq<Field>): (r: seq<byte>)
    ensures |r| == 4 + 4 * |fs|
  {
    U16(id) + U16(|fs|) + FieldBytes(fs)
  }

  function ReadFields(b: seq<byte>): (r: seq<Field>)
    requires |b| % 4 == 0
  {
    if |b| == 0 then []
    else
      var n := |b| - 4;
      ReadFields(b[..n]) + [Field(Number(b[n..n + 2]), Number(b[n + 2..]))]
  }

  /** The template of a template set: its id and as many fields as it says. */
  function ReadTemplate(body: seq<byte>): (r: Option<(nat, seq<Field>)>) {
    if |body| < 4 then None
    else
      var n := Number(body[2..4]);
      if 4 + 4 * n > |body| then None else Some((Number(body[..2]), ReadFields(body[4..4 + 4 * n])))
  }

  predicate WfFields(fs: seq<Field>) {
    |fs| < 0x1_0000 && forall i | 0 <= i < |fs| :: fs[i].kind < 0x1_0000 && 0 < fs[i].len < 0x1_0000
  }

  lemma {:induction false} FieldsRead(fs: seq<Field>)
    requires WfFields(fs)
    ensures ReadFields(FieldBytes(fs)) == fs
  {
    if |fs| > 0 {
      var n := |fs| - 1;
      var f, b := fs[n], FieldBytes(fs);
      FieldsRead(fs[..n]);
      U16Read(f.kind);
      U16Read(f.len);
      Pieces(FieldBytes(fs[..n]), U16(f.kind), U16(f.len));
      assert fs[..n] + [f] == fs;
    }
  }

  lemma HeadedParts(a: seq<byte>, b: seq<byte>, c: seq<byte>)
    requires |a| == 2 && |b| == 2
    ensures var s := a + b + c; s[..2] == a && s[2..4] == b && s[4..4 + |c|] == c
  {
  }

  /** A template is read back as it was written. */
  lemma {:induction false} TemplateRead(id: nat, fs: seq<Field>)
    requires id < 0x1_0000 && WfFields(fs)
    ensures ReadTemplate(TemplateBody(id, fs)) == Some((id, fs))
  {
    U16Read(id);
    U16Read(|fs|);
    FieldsRead(fs);
    HeadedParts(U16(id), U16(|fs|), FieldBytes(fs));
  }

  // ----- records -----

  function RecordLength(fs: seq<Field>): (n: nat) {
    if |fs| == 0 then 0 else RecordLength(fs[..|fs| - 1]) + fs[|fs| - 1].len
  }

  /** The values of a record, cut by the lengths of its template. */
  function ReadValues(fs: seq<Field>, b: seq<byte>): (r: seq<seq<byte>>)
    requires |b| == RecordLength(fs)
  {
    if |fs| == 0 then []
    else
      var n := |b| - fs[|fs| - 1].len;
      ReadValues(fs[..|fs| - 1], b[..n]) + [b[n..]]
  }

  predicate Matches(fs: seq<Field>, values: seq<seq<byte>>) {
    |fs| == |values| && forall i | 0 <= i < |fs| :: |values[i]| == fs[i].len
  }

  lemma {:induction false} ValuesRead(fs: seq<Field>, values: seq<seq<byte>>)
    requires Matches(fs, values)
    ensures |Concat(values)| == RecordLength(fs) && ReadValues(fs, Concat(values)) == values
  {
    if |fs| > 0 {
      var n := |fs| - 1;
      ValuesRead(fs[..n], values[..n]);
      assert Concat(values)[..RecordLength(fs[..n])] == Concat(values[..n]);
      assert values[..n] + [values[n]] == values;
    }
  }

  /** The records of a data set; what is shorter than a record at its end is padding. */
  function ReadRecords(fs: seq<Field>, b: seq<byte>): (r: seq<seq<seq<byte>>>)
    requires RecordLength(fs) > 0
    decreases |b|
  {
    var n := RecordLength(fs);
    if |b| < n then [] else [ReadValues(fs, b[..n])] + ReadRecords(fs, b[n..])
  }

  /** The bytes of records given by their values. */
  function RecordBytes(records: seq<seq<seq<byte>>>): (r: seq<byte>) {
    if |records| == 0 then [] else RecordBytes(records[..|records| - 1]) + Concat(records[|records| - 1])
  }

  predicate AllMatch(fs: seq<Field>, records: seq<seq<seq<byte>>>) {
    forall i | 0 <= i < |records| :: Matches(fs, records[i])
  }

  lemma OneMore(len: nat, n: nat)
    ensures len * (n + 1) == len * n + len
  {
  }

  lemma {:induction false} RecordBytesLength(fs: seq<Field>, records: seq<seq<seq<byte>>>)
    requires AllMatch(fs, records)
    ensures |RecordBytes(records)| == RecordLength(fs) * |records|
  {
    if |records| > 0 {
      var n := |records| - 1;
      assert Matches(fs, records[n]);
      RecordBytesLength(fs, records[..n]);
      ValuesRead(fs, records[n]);
      OneMore(RecordLength(fs), n);
    }
  }

  lemma {:induction false} RecordBytesFront(records: seq<seq<seq<byte>>>)
    requires |records| > 0
    ensures RecordBytes(records) == Concat(records[0]) + RecordBytes(records[1..])
  {
    var n := |records| - 1;
    if n == 0 {
      assert records[..0] == [] && records[1..] == [];
    } else {
      RecordBytesFront(records[..n]);
      assert records[1..][..n - 1] == records[..n][1..];
    }
  }

  /** Records are read back one for one, whatever padding follows. */
  lemma {:induction false} RecordsRead(fs: seq<Field>, records: seq<seq<seq<byte>>>, padding: seq<byte>)
    requires RecordLength(fs) > 0 && AllMatch(fs, records) && |padding| < RecordLength(fs)
    ensures ReadRecords(fs, RecordBytes(records) + padding) == records
    decreases |records|
  {
    if |records| > 0 {
      var n, b := RecordLength(fs), RecordBytes(records) + padding;
      RecordBytesFront(records);
      assert Matches(fs, records[0]);
      ValuesRead(fs, records[0]);
      Pieces(Concat(records[0]), RecordBytes(records[1..]), padding);
      RecordsRead(fs, records[1..], padding);
      assert [records[0]] + records[1..] == records;
    }
  }
}
