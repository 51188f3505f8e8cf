/** The DSMG weight file: written by tools/extract_magika_weights.py, read by
    MagikaModel::loadFromFile (SeerLib/src/Magika/MagikaModel.cpp).  Floats are 32-bit words; the
    machines on both sides are little-endian. */
module WeightFile {
  import opened Wrappers

  type Byte = x: int | 0 <= x < 256
  type Word = x: int | 0 <= x < 0x1_0000_0000

  const WORD_LIMIT := 0x1_0000_0000
  const SIZE_LIMIT := 0x1_0000_0000_0000_0000

  /** An initializer of the model: its shape may hold singleton dimensions. */
  datatype Tensor = Tensor(name: seq<Byte>, shape: seq<nat>, data: seq<Word>)

  // ---------------------------------------------------------------- shapes

  function Product(shape: seq<nat>): nat {
    if shape == [] then 1 else shape[0] * Product(shape[1..])
  }

  function DropSingletons(shape: seq<nat>): seq<nat> {
    if shape == [] then []
    else if shape[0] > 1 then [shape[0]] + DropSingletons(shape[1..])
    else DropSingletons(shape[1..])
  }

  /** The shape the script stores. */
  function Squeeze(shape: seq<nat>): seq<nat> {
    if DropSingletons(shape) == [] then [1] else DropSingletons(shape)
  }

  lemma ProductPositive(a: nat, b: nat)
    requires a >= 1 && b >= 1
    ensures a * b >= 1
  {
  }

  lemma {:induction false} DropPositive(shape: seq<nat>)
    ensures Product(DropSingletons(shape)) >= 1
  {
    if shape != [] {
      DropPositive(shape[1..]);
      if shape[0] > 1 {
        assert DropSingletons(shape)[1..] == DropSingletons(shape[1..]);
        ProductPositive(shape[0], Product(DropSingletons(shape[1..])));
      }
    }
  }

  lemma {:induction false} DropKeepsProduct(shape: seq<nat>)
    requires 0 !in shape
    ensures Product(DropSingletons(shape)) == Product(shape)
  {
    if shape != [] {
      DropKeepsProduct(shape[1..]);
      if shape[0] > 1 {
        assert DropSingletons(shape)[1..] == DropSingletons(shape[1..]);
      }
    }
  }

  lemma {:induction false} ZeroProduct(shape: seq<nat>)
    requires 0 in shape
    ensures Product(shape) == 0
  {
    if shape[0] != 0 { ZeroProduct(shape[1..]); }
  }

  /** Squeezing keeps the element count exactly when no dimension is zero. */
  lemma SqueezeKeepsCount(shape: seq<nat>)
    ensures Product(Squeeze(shape)) == Product(shape) <==> 0 !in shape
    ensures Product(Squeeze(shape)) >= 1
  {
    DropPositive(shape);
    assert Product([1]) == 1 by { assert [1][1..] == []; }
    if 0 in shape { ZeroProduct(shape); } else { DropKeepsProduct(shape); }
  }

  lemma {:induction false} DropDistributes(a: seq<nat>, b: seq<nat>)
    ensures DropSingletons(a + b) == DropSingletons(a) + DropSingletons(b)
  {
    if a == [] {
      assert a + b == b;
    } else {
      assert (a + b)[1..] == a[1..] + b;
      DropDistributes(a[1..], b);
    }
  }

  lemma {:induction false} DropKeepsOthers(shape: seq<nat>)
    ensures forall d :: d in DropSingletons(shape) <==> d in shape && d > 1
  {
    if shape != [] {
      DropKeepsOthers(shape[1..]);
      assert shape == [shape[0]] + shape[1..];
    }
  }

  /** What is stored: exactly the dimensions above one, or a single one if there are none. */
  lemma SqueezeStores(shape: seq<nat>)
    ensures if forall i :: 0 <= i < |shape| ==> shape[i] <= 1 then Squeeze(shape) == [1]
            else forall d :: d in Squeeze(shape) <==> d in shape && d > 1
  {
    DropKeepsOthers(shape);
    if forall i :: 0 <= i < |shape| ==> shape[i] <= 1 {
      DropsAll(shape);
    } else {
      var i :| 0 <= i < |shape| && shape[i] > 1;
      assert shape[i] in shape && shape[i] in DropSingletons(shape);
    }
  }

  lemma {:induction false} DropsAll(shape: seq<nat>)
    requires forall i :: 0 <= i < |shape| ==> shape[i] <= 1
    ensures DropSingletons(shape) == []
  {
    if shape != [] { DropsAll(shape[1..]); }
  }

  // ---------------------------------------------------------------- the writer

  /** struct.pack("<I", n). */
  function U32(n: nat): (b: seq<Byte>)
    requires n < WORD_LIMIT
    ensures |b| == 4
  {
    [n % 256, n / 256 % 256, n / 65536 % 256, n / 16777216]
  }

  function Words(ws: seq<nat>): seq<Byte>
    requires forall i :: 0 <= i < |ws| ==> ws[i] < WORD_LIMIT
  {
    if ws == [] then [] else U32(ws[0]) + Words(ws[1..])
  }

  predicate Fits(ns: seq<nat>) { forall i :: 0 <= i < |ns| ==> ns[i] < WORD_LIMIT }

  /** Every length and dimension fits its 32-bit field. */
  predicate TensorFits(t: Tensor) {
    |t.name| < WORD_LIMIT && |Squeeze(t.shape)| < WORD_LIMIT && Fits(Squeeze(t.shape))
  }

  function Text(s: seq<Byte>): seq<Byte>
    requires |s| < WORD_LIMIT
  {
    U32(|s|) + s
  }

  function TensorBytes(t: Tensor): seq<Byte>
    requires TensorFits(t)
  {
    Text(t.name) + U32(|Squeeze(t.shape)|) + Words(Squeeze(t.shape)) + Words(t.data)
  }

  predicate TensorsFit(ts: seq<Tensor>) { forall i :: 0 <= i < |ts| ==> TensorFits(ts[i]) }

  function TensorsBytes(ts: seq<Tensor>): seq<Byte>
    requires TensorsFit(ts)
  {
    if ts == [] then [] else TensorBytes(ts[0]) + TensorsBytes(ts[1..])
  }

  function TextsBytes(labels: seq<seq<Byte>>): seq<Byte>
    requires forall i :: 0 <= i < |labels| ==> |labels[i]| < WORD_LIMIT
  {
    if labels == [] then [] else Text(labels[0]) + TextsBytes(labels[1..])
  }

  predicate FileFits(ts: seq<Tensor>, labels: seq<seq<Byte>>) {
    && |ts| < WORD_LIMIT && |labels| < WORD_LIMIT
    && TensorsFit(ts)
    && (forall i :: 0 <= i < |labels| ==> |labels[i]| < WORD_LIMIT)
  }

  const Magic: seq<Byte> := [68, 83, 77, 71]   // "DSMG"

  function FileBytes(ts: seq<Tensor>, labels: seq<seq<Byte>>): seq<Byte>
    requires FileFits(ts, labels)
  {
    Magic + U32(1) + U32(|ts|) + TensorsBytes(ts) + U32(|labels|) + TextsBytes(labels)
  }

  /** The size the script prints. */
  function TensorsSize(ts: seq<Tensor>): nat {
    if ts == [] then 0
    else (4 + |ts[0].name| + 4 + |Squeeze(ts[0].shape)| * 4 + |ts[0].data| * 4) + TensorsSize(ts[1..])
  }

  function LabelsSize(labels: seq<seq<Byte>>): nat {
    if labels == [] then 0 else (4 + |labels[0]|) + LabelsSize(labels[1..])
  }

  function FileSize(ts: seq<Tensor>, labels: seq<seq<Byte>>): nat {
    TensorsSize(ts) + 12 + (4 + LabelsSize(labels))
  }

  lemma {:induction false} WordsLength(ws: seq<nat>)
    requires Fits(ws)
    ensures |Words(ws)| == |ws| * 4
  {
    if ws != [] { WordsLength(ws[1..]); }
  }

  lemma {:induction false} TensorsLength(ts: seq<Tensor>)
    requires TensorsFit(ts)
    ensures |TensorsBytes(ts)| == TensorsSize(ts)
  {
    if ts != [] {
      WordsLength(Squeeze(ts[0].shape));
      WordsLength(ts[0].data);
      TensorsLength(ts[1..]);
    }
  }

  lemma {:induction false} LabelsLength(labels: seq<seq<Byte>>)
    requires forall i :: 0 <= i < |labels| ==> |labels[i]| < WORD_LIMIT
    ensures |TextsBytes(labels)| == LabelsSize(labels)
  {
    if labels != [] { LabelsLength(labels[1..]); }
  }

  /** The printed size is the number of bytes written. */
  lemma PrintedSizeIsWritten(ts: seq<Tensor>, labels: seq<seq<Byte>>)
    requires FileFits(ts, labels)
    ensures |FileBytes(ts, labels)| == FileSize(ts, labels)
  {
    TensorsLength(ts);
    LabelsLength(labels);
  }

  // ---------------------------------------------------------------- the reader

  /** An input stream: what is left, and whether no read has failed yet. */
  datatype Stream = Stream(rest: seq<Byte>, good: bool)

  datatype LoadError = InvalidMagic | UnsupportedVersion | TensorName | TensorData | Label | MissingTensor

  datatype Result<T> = Ok(value: T) | Err(error: LoadError)

  function LittleEndian(b: seq<Byte>): nat {
    if b == [] then 0 else b[0] + 256 * LittleEndian(b[1..])
  }

  /** readVal into a zeroed variable: a short read fills the low bytes and fails the stream. */
  function ReadU32(s: Stream): (nat, Stream) {
    if !s.good then (0, s)
    else if |s.rest| >= 4 then (LittleEndian(s.rest[..4]), Stream(s.rest[4..], true))
    else (LittleEndian(s.rest), Stream([], false))
  }

  /** A read of n bytes whose result the caller checks. */
  function ReadBytes(s: Stream, n: nat): (Option<seq<Byte>>, Stream) {
    if s.good && |s.rest| >= n then (Some(s.rest[..n]), Stream(s.rest[n..], true))
    else (None, Stream([], false))
  }

  /** readString. */
  function ReadText(s: Stream): (Option<seq<Byte>>, Stream) {
    var (n, s1) := ReadU32(s);
    ReadBytes(s1, n)
  }

  /** n unchecked readVal calls. */
  function ReadShape(s: Stream, n: nat): (seq<nat>, Stream)
    decreases n
  {
    if n == 0 then ([], s)
    else
      var (d, s1) := ReadU32(s);
      var (ds, s2) := ReadShape(s1, n - 1);
      ([d] + ds, s2)
  }

  function DecodeWords(b: seq<Byte>): (ws: seq<nat>)
    requires |b| % 4 == 0
    ensures 4 * |ws| == |b|
  {
    if b == [] then [] else [LittleEndian(b[..4])] + DecodeWords(b[4..])
  }

  /** readFloats: one read of 4 * count bytes. */
  function ReadFloats(s: Stream, count: nat): (Option<seq<nat>>, Stream) {
    var (b, s1) := ReadBytes(s, 4 * count);
    (if b.Some? then Some(DecodeWords(b.value)) else None, s1)
  }

  /** The element count, computed in a 64-bit size_t. */
  function Count(shape: seq<nat>): nat { Product(shape) % SIZE_LIMIT }

  function ReadTensor(s: Stream): Result<(seq<Byte>, seq<nat>, Stream)> {
    var (name, s1) := ReadText(s);
    if name.None? then Err(TensorName) else
    var (dims, s2) := ReadU32(s1);
    var (shape, s3) := ReadShape(s2, dims);
    var (data, s4) := ReadFloats(s3, Count(shape));
    if data.None? then Err(TensorData) else Ok((name.value, data.value, s4))
  }

  /** Where the tensor loop stands: the tensors found so far and the stream. */
  datatype Progress = Progress(found: map<seq<Byte>, seq<nat>>, at: Stream)

  function AddTensor(p: Progress): Result<Progress> {
    match ReadTensor(p.at)
    case Err(e) => Err(e)
    case Ok((name, data, after)) => Ok(Progress(p.found[name := data], after))
  }

  /** n steps, stopping at the first error. */
  function Repeat<S>(step: S -> Result<S>, s: S, n: nat): Result<S>
    decreases n
  {
    if n == 0 then Ok(s)
    else match step(s)
      case Err(e) => Err(e)
      case Ok(t) => Repeat(step, t, n - 1)
  }

  function ReadLabels(s: Stream, n: nat): Result<seq<seq<Byte>>>
    decreases n
  {
    if n == 0 then Ok([])
    else
      var (text, s1) := ReadText(s);
      if text.None? then Err(Label)
      else match ReadLabels(s1, n - 1)
        case Err(e) => Err(e)
        case Ok(ls) => Ok([text.value] + ls)
  }

  datatype Model = Model(weights: map<seq<Byte>, seq<nat>>, labels: seq<seq<Byte>>)

  /** loadFromFile; `required` are the names of the tensors the model needs. */
  function Load(file: seq<Byte>, required: set<seq<Byte>>): Result<Model> {
    if |file| < 4 || file[..4] != Magic then Err(InvalidMagic) else
    var (version, s1) := ReadU32(Stream(file[4..], true));
    if version != 1 then Err(UnsupportedVersion) else
    var (n, s2) := ReadU32(s1);
    match Repeat(AddTensor, Progress(map[], s2), n)
    case Err(e) => Err(e)
    case Ok(p) =>
      var (m, s4) := ReadU32(p.at);
      match ReadLabels(s4, m)
      case Err(e) => Err(e)
      case Ok(labels) =>
        if required <= p.found.Keys then Ok(Model(map k | k in required :: p.found[k], labels)) else Err(MissingTensor)
  }

  // ---------------------------------------------------------------- reading back what was written

  lemma LittleEndianFour(a: Byte, b: Byte, c: Byte, d: Byte)
    ensures LittleEndian([a, b, c, d]) == a + 256 * b + 65536 * c + 16777216 * d
  {
    assert [a, b, c, d][1..] == [b, c, d] && [b, c, d][1..] == [c, d] && [c, d][1..] == [d] && [d][1..] == [];
    assert LittleEndian([d]) == d;
    assert LittleEndian([c, d]) == c + 256 * d;
  }

  lemma Digits(n: nat)
    ensures n == n % 256 + 256 * (n / 256 % 256) + 65536 * (n / 65536 % 256) + 16777216 * (n / 16777216)
  {
    assert n / 65536 == n / 256 / 256 && n / 16777216 == n / 256 / 256 / 256;
  }

  lemma U32Value(n: nat)
    requires n < WORD_LIMIT
    ensures LittleEndian(U32(n)) == n
  {
    LittleEndianFour(n % 256, n / 256 % 256, n / 65536 % 256, n / 16777216);
    Digits(n);
  }

  lemma U32RoundTrip(n: nat, rest: seq<Byte>)
    requires n < WORD_LIMIT
    ensures ReadU32(Stream(U32(n) + rest, true)) == (n, Stream(rest, true))
  {
    U32Value(n);
    assert (U32(n) + rest)[..4] == U32(n) && (U32(n) + rest)[4..] == rest;
  }

  lemma TextRoundTrip(s: seq<Byte>, rest: seq<Byte>)
    requires |s| < WORD_LIMIT
    ensures ReadText(Stream(Text(s) + rest, true)) == (Some(s), Stream(rest, true))
  {
    U32RoundTrip(|s|, s + rest);
    assert Text(s) + rest == U32(|s|) + (s + rest);
    assert (s + rest)[..|s|] == s && (s + rest)[|s|..] == rest;
  }

  lemma ShapeStep(s: Stream, n: nat, d: nat, s1: Stream, ds: seq<nat>, s2: Stream)
    requires n > 0 && ReadU32(s) == (d, s1) && ReadShape(s1, n - 1) == (ds, s2)
    ensures ReadShape(s, n) == ([d] + ds, s2)
  {
  }

  lemma {:induction false} ShapeRoundTrip(ds: seq<nat>, rest: seq<Byte>)
    requires Fits(ds)
    ensures ReadShape(Stream(Words(ds) + rest, true), |ds|) == (ds, Stream(rest, true))
  {
    if ds == [] {
      assert Words(ds) + rest == rest;
    } else {
      var after := Words(ds[1..]) + rest;
      RegroupEnd(U32(ds[0]), Words(ds[1..]), rest);
      U32RoundTrip(ds[0], after);
      ShapeRoundTrip(ds[1..], rest);
      ShapeStep(Stream(U32(ds[0]) + after, true), |ds|, ds[0], Stream(after, true), ds[1..], Stream(rest, true));
      assert ds == [ds[0]] + ds[1..];
    }
  }

  lemma {:induction false} DecodeRoundTrip(ws: seq<nat>)
    requires Fits(ws)
    ensures |Words(ws)| == 4 * |ws| && DecodeWords(Words(ws)) == ws
  {
    if ws != [] {
      DecodeRoundTrip(ws[1..]);
      U32Value(ws[0]);
      assert Words(ws)[..4] == U32(ws[0]) && Words(ws)[4..] == Words(ws[1..]);
      assert ws == [ws[0]] + ws[1..];
    }
  }

  lemma FloatsRoundTrip(ws: seq<nat>, rest: seq<Byte>)
    requires Fits(ws)
    ensures ReadFloats(Stream(Words(ws) + rest, true), |ws|) == (Some(ws), Stream(rest, true))
  {
    DecodeRoundTrip(ws);
    assert (Words(ws) + rest)[..4 * |ws|] == Words(ws) && (Words(ws) + rest)[4 * |ws|..] == rest;
  }

  /** numpy: the flattened data has as many elements as the shape says; counts fit a size_t. */
  predicate WellShaped(t: Tensor) {
    |t.data| == Product(t.shape) && Product(t.shape) < SIZE_LIMIT && Product(Squeeze(t.shape)) < SIZE_LIMIT
  }

  lemma Regroup(a: seq<Byte>, b: seq<Byte>, c: seq<Byte>, d: seq<Byte>, e: seq<Byte>)
    ensures a + b + c + d + e == a + (b + (c + (d + e)))
  {
  }

  lemma ReadTensorSteps(s: Stream, name: seq<Byte>, s1: Stream, n: nat, s2: Stream, shape: seq<nat>, s3: Stream)
    requires ReadText(s) == (Some(name), s1) && ReadU32(s1) == (n, s2) && ReadShape(s2, n) == (shape, s3)
    requires Product(shape) < SIZE_LIMIT
    ensures var (data, after) := ReadFloats(s3, Product(shape));
            ReadTensor(s) == if data.None? then Err(TensorData) else Ok((name, data.value, after))
  {
    CountInRange(shape);
    FinishTensor(s, name, s1, n, s2, shape, s3, Product(shape));
  }

  lemma CountInRange(shape: seq<nat>)
    requires Product(shape) < SIZE_LIMIT
    ensures Count(shape) == Product(shape)
  {
  }

  lemma FinishTensor(s: Stream, name: seq<Byte>, s1: Stream, n: nat, s2: Stream, shape: seq<nat>, s3: Stream, count: nat)
    requires ReadText(s) == (Some(name), s1) && ReadU32(s1) == (n, s2) && ReadShape(s2, n) == (shape, s3)
    requires Count(shape) == count
    ensures var (data, after) := ReadFloats(s3, count);
            ReadTensor(s) == if data.None? then Err(TensorData) else Ok((name, data.value, after))
  {
  }

  /** What the reader makes of a written tensor: it reads as many words as the squeezed shape says. */
  lemma TensorReads(t: Tensor, rest: seq<Byte>)
    requires TensorFits(t) && WellShaped(t)
    ensures var (data, after) := ReadFloats(Stream(Words(t.data) + rest, true), Product(Squeeze(t.shape)));
            ReadTensor(Stream(TensorBytes(t) + rest, true)) ==
            if data.None? then Err(TensorData) else Ok((t.name, data.value, after))
  {
    var dims := Squeeze(t.shape);
    var afterDims := Words(t.data) + rest;
    var afterCount := Words(dims) + afterDims;
    var afterName := U32(|dims|) + afterCount;
    Regroup(Text(t.name), U32(|dims|), Words(dims), Words(t.data), rest);
    TextRoundTrip(t.name, afterName);
    U32RoundTrip(|dims|, afterCount);
    ShapeRoundTrip(dims, afterDims);
    ReadTensorSteps(Stream(TensorBytes(t) + rest, true), t.name, Stream(afterName, true), |dims|, Stream(afterCount, true),
                    dims, Stream(afterDims, true));
  }

  /** A tensor is read back whole, with the stream just behind it, if and only if no dimension is zero. */
  lemma TensorRoundTrip(t: Tensor, rest: seq<Byte>)
    requires TensorFits(t) && WellShaped(t)
    ensures ReadTensor(Stream(TensorBytes(t) + rest, true)) == Ok((t.name, t.data, Stream(rest, true))) <==> 0 !in t.shape
  {
    TensorReads(t, rest);
    SqueezeKeepsCount(t.shape);
    if 0 !in t.shape { FloatsRoundTrip(t.data, rest); }
  }

  /** What the reader's table holds after a list of tensors: the last one of each name. */
  function Table(ts: seq<Tensor>, found: map<seq<Byte>, seq<nat>>): map<seq<Byte>, seq<nat>> {
    if ts == [] then found else Table(ts[1..], found[ts[0].name := ts[0].data])
  }

  predicate Readable(ts: seq<Tensor>) {
    forall i :: 0 <= i < |ts| ==> TensorFits(ts[i]) && WellShaped(ts[i]) && 0 !in ts[i].shape
  }

  lemma RepeatOnce<S>(step: S -> Result<S>, s: S, n: nat, next: S)
    requires n > 0 && step(s) == Ok(next)
    ensures Repeat(step, s, n) == Repeat(step, next, n - 1)
  {
  }

  /** `step` is one round of the tensor loop. */
  ghost predicate IsRound(step: Progress -> Result<Progress>) {
    forall p {:trigger AddTensor(p)} :: step(p) == AddTensor(p)
  }

  lemma {:induction false} RoundsRoundTrip(ts: seq<Tensor>, found: map<seq<Byte>, seq<nat>>, rest: seq<Byte>,
                                           step: Progress -> Result<Progress>)
    requires Readable(ts) && IsRound(step)
    ensures Repeat(step, Progress(found, Stream(TensorsBytes(ts) + rest, true)), |ts|) ==
            Ok(Progress(Table(ts, found), Stream(rest, true)))
  {
    if ts == [] {
      assert TensorsBytes(ts) + rest == rest;
    } else {
      var after := TensorsBytes(ts[1..]) + rest;
      RegroupEnd(TensorBytes(ts[0]), TensorsBytes(ts[1..]), rest);
      FirstTensor(ts[0], after, found, step);
      RoundsRoundTrip(ts[1..], found[ts[0].name := ts[0].data], rest, step);
    }
  }

  lemma TensorsRoundTrip(ts: seq<Tensor>, found: map<seq<Byte>, seq<nat>>, rest: seq<Byte>)
    requires Readable(ts)
    ensures Repeat(AddTensor, Progress(found, Stream(TensorsBytes(ts) + rest, true)), |ts|) ==
            Ok(Progress(Table(ts, found), Stream(rest, true)))
  {
    RoundsRoundTrip(ts, found, rest, AddTensor);
  }

  lemma FirstTensor(t: Tensor, after: seq<Byte>, found: map<seq<Byte>, seq<nat>>, step: Progress -> Result<Progress>)
    requires TensorFits(t) && WellShaped(t) && 0 !in t.shape && IsRound(step)
    ensures step(Progress(found, Stream(TensorBytes(t) + after, true))) ==
            Ok(Progress(found[t.name := t.data], Stream(after, true)))
  {
    TensorRoundTrip(t, after);
    var p := Progress(found, Stream(TensorBytes(t) + after, true));
    assert step(p) == AddTensor(p);
  }

  lemma {:induction false} LabelsRoundTrip(labels: seq<seq<Byte>>, rest: seq<Byte>)
    requires forall i :: 0 <= i < |labels| ==> |labels[i]| < WORD_LIMIT
    ensures ReadLabels(Stream(TextsBytes(labels) + rest, true), |labels|) == Ok(labels)
  {
    if labels != [] {
      TextRoundTrip(labels[0], TextsBytes(labels[1..]) + rest);
      assert TextsBytes(labels) + rest == Text(labels[0]) + (TextsBytes(labels[1..]) + rest);
      LabelsRoundTrip(labels[1..], rest);
      assert labels == [labels[0]] + labels[1..];
    }
  }

  /** With distinct names the table holds the data of every tensor, and nothing else. */
  lemma {:induction false} TableHolds(ts: seq<Tensor>, found: map<seq<Byte>, seq<nat>>)
    requires forall i, j :: 0 <= i < j < |ts| ==> ts[i].name != ts[j].name
    ensures forall i :: 0 <= i < |ts| ==> ts[i].name in Table(ts, found) && Table(ts, found)[ts[i].name] == ts[i].data
    ensures forall k :: (forall i :: 0 <= i < |ts| ==> ts[i].name != k) ==>
              (k in Table(ts, found) <==> k in found) && (k in found ==> Table(ts, found)[k] == found[k])
  {
    if ts != [] {
      var found' := found[ts[0].name := ts[0].data];
      TableHolds(ts[1..], found');
      forall i | 0 <= i < |ts| ensures ts[i].name in Table(ts, found) && Table(ts, found)[ts[i].name] == ts[i].data {
        if i > 0 { assert ts[1..][i - 1] == ts[i]; }
      }
      forall k | forall i :: 0 <= i < |ts| ==> ts[i].name != k
        ensures (k in Table(ts, found) <==> k in found) && (k in found ==> Table(ts, found)[k] == found[k])
      {
        assert ts[0].name != k;
        assert forall i :: 0 <= i < |ts| - 1 ==> ts[1..][i] == ts[i + 1];
      }
    }
  }

  lemma RegroupEnd(a: seq<Byte>, b: seq<Byte>, c: seq<Byte>)
    ensures a + b + c == a + (b + c)
  {
  }

  lemma SplitFour(a: seq<Byte>, b: seq<Byte>)
    requires |a| == 4
    ensures |a + b| >= 4 && (a + b)[..4] == a && (a + b)[4..] == b
  {
  }

  /** Round trip: reading back what the script writes yields the labels in order and, for every required
      name, the data of the last tensor written under it; it fails only if a required name is missing. */
  lemma FileRoundTrip(ts: seq<Tensor>, labels: seq<seq<Byte>>, required: set<seq<Byte>>)
    requires FileFits(ts, labels) && Readable(ts)
    ensures Load(FileBytes(ts, labels), required) ==
            if required <= Table(ts, map[]).Keys
            then Ok(Model(map k | k in required :: Table(ts, map[])[k], labels)) else Err(MissingTensor)
  {
    var tail := U32(|labels|) + TextsBytes(labels);
    var body := TensorsBytes(ts) + tail;
    var file := FileBytes(ts, labels);
    Regroup(Magic, U32(1), U32(|ts|), TensorsBytes(ts), U32(|labels|) + TextsBytes(labels));
    RegroupEnd(Magic + U32(1) + U32(|ts|) + TensorsBytes(ts), U32(|labels|), TextsBytes(labels));
    SplitFour(Magic, U32(1) + (U32(|ts|) + body));
    U32RoundTrip(1, U32(|ts|) + body);
    U32RoundTrip(|ts|, body);
    TensorsRoundTrip(ts, map[], tail);
    U32RoundTrip(|labels|, TextsBytes(labels));
    LabelsRoundTrip(labels, []);
    assert TextsBytes(labels) + [] == TextsBytes(labels);
  }

  lemma EmptyShape(name: seq<Byte>)
    requires |name| < WORD_LIMIT
    ensures var t := Tensor(name, [0], []); TensorFits(t) && WellShaped(t) && Squeeze(t.shape) == [1] && Product([1]) == 1
  {
    assert [0][1..] == [] && [1][1..] == [];
    assert DropSingletons([0]) == DropSingletons([]) == [];
    assert Product([0]) == 0;
  }

  /** A tensor with a zero dimension swallows the word behind it. */
  lemma EmptyTensorMisread(name: seq<Byte>, m: nat, rest: seq<Byte>)
    requires |name| < WORD_LIMIT && m < WORD_LIMIT
    ensures var t := Tensor(name, [0], []);
            && TensorFits(t) && WellShaped(t)
            && ReadTensor(Stream(TensorBytes(t) + (U32(m) + rest), true)) == Ok((name, [m], Stream(rest, true)))
  {
    EmptyShape(name);
    TensorReads(Tensor(name, [0], []), U32(m) + rest);
    assert [m][1..] == [];
    assert Words([m]) == U32(m) && Words([]) + (U32(m) + rest) == Words([m]) + rest;
    FloatsRoundTrip([m], rest);
  }

  /** So a file with one such tensor and no labels loads without error, with a word of data that was
      never written: the number of labels. */
  lemma EmptyTensorCorrupts(name: seq<Byte>)
    requires |name| < WORD_LIMIT
    ensures var t := Tensor(name, [0], []);
            && FileFits([t], []) && WellShaped(t)
            && Load(FileBytes([t], []), {name}) == Ok(Model(map[name := [0]], []))
  {
    var t := Tensor(name, [0], []);
    EmptyTensorMisread(name, 0, []);
    var body := TensorBytes(t) + U32(0);
    var file := FileBytes([t], []);
    OneTensorFile(t, body);
    assert U32(0) + [] == U32(0);
    SplitFour(Magic, U32(1) + (U32(1) + body));
    U32RoundTrip(1, U32(1) + body);
    U32RoundTrip(1, body);
    OneRound(Progress(map[], Stream(body, true)), name, [0], Stream([], true));
    LoadSteps(file, {name}, Stream(U32(1) + body, true), 1, Stream(body, true),
              Progress(map[name := [0]], Stream([], true)), 0, Stream([], false), []);
  }

  lemma OneTensorFile(t: Tensor, body: seq<Byte>)
    requires TensorFits(t) && body == TensorBytes(t) + U32(0)
    ensures FileBytes([t], []) == Magic + (U32(1) + (U32(1) + body))
  {
    assert TensorsBytes([t]) == TensorBytes(t) by { assert [t][1..] == []; }
    Regroup(Magic, U32(1), U32(1), TensorBytes(t), U32(0));
  }

  lemma LoadSteps(file: seq<Byte>, required: set<seq<Byte>>, s1: Stream, n: nat, s2: Stream, p: Progress,
                  m: nat, s4: Stream, labels: seq<seq<Byte>>)
    requires |file| >= 4 && file[..4] == Magic && ReadU32(Stream(file[4..], true)) == (1, s1) && ReadU32(s1) == (n, s2)
    requires Repeat(AddTensor, Progress(map[], s2), n) == Ok(p)
    requires ReadU32(p.at) == (m, s4) && ReadLabels(s4, m) == Ok(labels)
    requires required == p.found.Keys
    ensures Load(file, required) == Ok(Model(p.found, labels))
  {
    assert (map k | k in required :: p.found[k]) == p.found;
  }

  lemma OneRound(p: Progress, name: seq<Byte>, data: seq<nat>, after: Stream)
    requires ReadTensor(p.at) == Ok((name, data, after))
    ensures Repeat(AddTensor, p, 1) == Ok(Progress(p.found[name := data], after))
  {
    RepeatOnce(AddTensor, p, 1, Progress(p.found[name := data], after));
  }

  /** The bytes of a word, least significant first, said without the reader. */
  lemma U32Bytes(n: nat)
    requires n < WORD_LIMIT
    ensures n == (U32(n)[0] as int) + (U32(n)[1] as int) * 256 + (U32(n)[2] as int) * 65536 + (U32(n)[3] as int) * 16777216
  {
    Digits(n);
  }

  /** The file of no tensors and no labels: "DSMG", version 1 and two zero counts. */
  lemma EmptyFile()
    ensures FileFits([], [])
    ensures FileBytes([], []) == [0x44, 0x53, 0x4D, 0x47, 1, 0, 0, 0, 0, 0, 0, 0, 0, 0, 0, 0]
  {
    assert U32(1) == [1, 0, 0, 0] && U32(0) == [0, 0, 0, 0];
    assert FileBytes([], []) == Magic + U32(1) + U32(0) + U32(0);
  }

  /** The element count is computed in 64 bits. */
  lemma CountWraps()
    ensures Count([65536, 65536, 65536, 65536]) == 0
  {
    assert [65536, 65536, 65536, 65536][1..] == [65536, 65536, 65536] && [65536, 65536, 65536][1..] == [65536, 65536];
    assert [65536, 65536][1..] == [65536] && [65536][1..] == [];
    assert Product([65536]) == 65536 && Product([65536, 65536]) == 0x1_0000_0000;
    assert Product([65536, 65536, 65536]) == 0x1_0000_0000_0000;
  }

  lemma {:induction false} ZeroBytes(b: seq<Byte>)
    ensures LittleEndian(b) == 0 <==> forall i :: 0 <= i < |b| ==> b[i] == 0
  {
    if b != [] {
      ZeroBytes(b[1..]);
      assert forall i :: 0 < i < |b| ==> b[i] == b[1..][i - 1];
    }
  }

  lemma OneBytes(b: seq<Byte>)
    ensures LittleEndian(b) == 1 <==> b != [] && b[0] == 1 && forall i :: 0 < i < |b| ==> b[i] == 0
  {
    if b != [] {
      ZeroBytes(b[1..]);
      assert forall i :: 0 <= i < |b| - 1 ==> b[1..][i] == b[i + 1];
    }
  }

  lemma {:induction false} LabelErrors(s: Stream, n: nat)
    ensures ReadLabels(s, n).Err? ==> ReadLabels(s, n).error.Label?
    decreases n
  {
    if n > 0 { LabelErrors(ReadText(s).1, n - 1); }
  }

  lemma {:induction false} RepeatErrors<S>(step: S -> Result<S>, s: S, n: nat)
    ensures var r := Repeat(step, s, n); r.Err? ==> exists t :: step(t).Err? && step(t).error == r.error
    decreases n
  {
    if n > 0 && step(s).Ok? { RepeatErrors(step, step(s).value, n - 1); }
  }

  predicate Late(e: LoadError) { !e.InvalidMagic? && !e.UnsupportedVersion? }

  lemma AddTensorErrors(p: Progress)
    ensures AddTensor(p).Err? ==> Late(AddTensor(p).error)
  {
  }

  /** With magic and version accepted, other errors follow. */
  lemma LaterErrors(file: seq<Byte>, required: set<seq<Byte>>, s1: Stream)
    requires |file| >= 4 && file[..4] == Magic && ReadU32(Stream(file[4..], true)) == (1, s1)
    ensures Load(file, required).Err? ==> Late(Load(file, required).error)
  {
    var (n, s2) := ReadU32(s1);
    var step, start := AddTensor, Progress(map[], s2);
    RepeatErrors(step, start, n);
    var r := Repeat(AddTensor, start, n);
    assert r == Repeat(step, start, n);
    if r.Err? {
      var t :| step(t).Err? && step(t).error == r.error;
      AddTensorErrors(t);
    } else {
      var (m, s4) := ReadU32(r.value.at);
      LabelErrors(s4, m);
    }
  }

  /** What follows the magic passes as version 1: a non-empty beginning of the bytes 1, 0, 0, 0, or all
      four and more.  Short reads are not checked. */
  predicate PassesAsOne(rest: seq<Byte>) {
    rest != [] && rest[0] == 1 && forall i :: 0 < i < |rest| && i < 4 ==> rest[i] == 0
  }

  /** Exactly which files are rejected for their magic or their version. */
  lemma WrongFilesRejected(file: seq<Byte>, required: set<seq<Byte>>)
    ensures Load(file, required) == Err(InvalidMagic) <==> !(Magic <= file)
    ensures Load(file, required) == Err(UnsupportedVersion) <==> Magic <= file && !PassesAsOne(file[4..])
  {
    if Magic <= file {
      assert file[..4] == Magic;
      var rest := file[4..];
      OneBytes(if |rest| >= 4 then rest[..4] else rest);
      var (version, s1) := ReadU32(Stream(rest, true));
      if version == 1 { LaterErrors(file, required, s1); }
    }
  }

  /** Short reads are not checked: a file cut off within its version word still passes as version 1. */
  lemma ShortVersionAccepted()
    ensures Load(Magic + [1], {}) == Ok(Model(map[], []))
    ensures forall name :: Load(Magic + [1], {name}) == Err(MissingTensor)
  {
    var file := Magic + [1];
    assert file[..4] == Magic && file[4..] == [1];
    assert LittleEndian([1]) == 1 by { assert [1][1..] == []; }
    assert ReadU32(Stream([1], true)) == (1, Stream([], false));
    assert ReadU32(Stream([], false)) == (0, Stream([], false));
    forall name ensures Load(file, {name}) == Err(MissingTensor) {
      assert name in {name};
    }
  }

  /** A file that announces tensors and ends there is rejected for want of a name. */
  lemma MissingTensorsRejected(n: nat, required: set<seq<Byte>>)
    requires 0 < n < WORD_LIMIT
    ensures Load(Magic + (U32(1) + U32(n)), required) == Err(TensorName)
  {
    SplitFour(Magic, U32(1) + U32(n));
    U32RoundTrip(1, U32(n));
    assert U32(n) + [] == U32(n);
    U32RoundTrip(n, []);
    assert AddTensor(Progress(map[], Stream([], true))) == Err(TensorName);
  }

  /** A tensor cut off within its data is rejected. */
  lemma TruncatedDataRejected(t: Tensor, cut: nat)
    requires TensorFits(t) && WellShaped(t) && 0 !in t.shape && 0 < cut <= 4 * |t.data|
    ensures |TensorBytes(t)| >= cut
    ensures ReadTensor(Stream(TensorBytes(t)[..|TensorBytes(t)| - cut], true)) == Err(TensorData)
  {
    var dims, data := Squeeze(t.shape), Words(t.data);
    WordsLength(t.data);
    SqueezeKeepsCount(t.shape);
    var rest := data[..|data| - cut];
    var head := Text(t.name) + U32(|dims|) + Words(dims);
    assert TensorBytes(t)[..|TensorBytes(t)| - cut] == head + rest;
    HeadReads(t, rest);
  }

  /** The reader of a tensor has got to its data. */
  lemma HeadReads(t: Tensor, rest: seq<Byte>)
    requires TensorFits(t) && WellShaped(t)
    ensures var (data, after) := ReadFloats(Stream(rest, true), Product(Squeeze(t.shape)));
            ReadTensor(Stream(Text(t.name) + U32(|Squeeze(t.shape)|) + Words(Squeeze(t.shape)) + rest, true)) ==
            if data.None? then Err(TensorData) else Ok((t.name, data.value, after))
  {
    var dims := Squeeze(t.shape);
    var afterCount := Words(dims) + rest;
    var afterName := U32(|dims|) + afterCount;
    var all := Text(t.name) + U32(|dims|) + Words(dims) + rest;
    assert all == Text(t.name) + afterName;
    TextRoundTrip(t.name, afterName);
    U32RoundTrip(|dims|, afterCount);
    ShapeRoundTrip(dims, rest);
    ReadTensorSteps(Stream(all, true), t.name, Stream(afterName, true), |dims|, Stream(afterCount, true), dims, Stream(rest, true));
  }

  /** With distinct names, every required tensor comes back with its own data. */
  lemma WeightsComeBack(ts: seq<Tensor>, labels: seq<seq<Byte>>, required: set<seq<Byte>>)
    requires FileFits(ts, labels) && Readable(ts)
    requires forall i, j :: 0 <= i < j < |ts| ==> ts[i].name != ts[j].name
    requires forall k :: k in required ==> exists i :: 0 <= i < |ts| && ts[i].name == k
    ensures var r := Load(FileBytes(ts, labels), required);
            && r.Ok? && r.value.labels == labels && r.value.weights.Keys == required
            && forall i :: 0 <= i < |ts| && ts[i].name in required ==> r.value.weights[ts[i].name] == ts[i].data
  {
    FileRoundTrip(ts, labels, required);
    TableHolds(ts, map[]);
  }

  // ---------------------------------------------------------------- the programs

  lemma {:induction false} WordsAppend(ws: seq<nat>, w: nat)
    requires Fits(ws) && w < WORD_LIMIT
    ensures Fits(ws + [w]) && Words(ws + [w]) == Words(ws) + U32(w)
  {
    if ws == [] {
      assert ws + [w] == [w] && [w][1..] == [];
    } else {
      assert (ws + [w])[1..] == ws[1..] + [w];
      WordsAppend(ws[1..], w);
    }
  }

  lemma {:induction false} TensorsAppend(ts: seq<Tensor>, t: Tensor)
    requires TensorsFit(ts) && TensorFits(t)
    ensures TensorsFit(ts + [t]) && TensorsBytes(ts + [t]) == TensorsBytes(ts) + TensorBytes(t)
  {
    if ts == [] {
      assert ts + [t] == [t] && [t][1..] == [];
    } else {
      var more := ts[1..] + [t];
      assert ts + [t] == [ts[0]] + more && ([ts[0]] + more)[1..] == more;
      TensorsAppend(ts[1..], t);
      RegroupEnd(TensorBytes(ts[0]), TensorsBytes(ts[1..]), TensorBytes(t));
    }
  }

  lemma {:induction false} TextsAppend(ls: seq<seq<Byte>>, l: seq<Byte>)
    requires (forall i :: 0 <= i < |ls| ==> |ls[i]| < WORD_LIMIT) && |l| < WORD_LIMIT
    ensures TextsBytes(ls + [l]) == TextsBytes(ls) + Text(l)
  {
    if ls == [] {
      assert ls + [l] == [l] && [l][1..] == [];
    } else {
      assert (ls + [l])[1..] == ls[1..] + [l];
      TextsAppend(ls[1..], l);
    }
  }

  /** One tensor of the script's main loop; None where struct.pack would raise. */
  method WriteTensor(t: Tensor) returns (out: Option<seq<Byte>>)
    ensures out == if TensorFits(t) then Some(TensorBytes(t)) else None
  {
    var shape := Squeeze(t.shape);
    if |t.name| >= WORD_LIMIT || |shape| >= WORD_LIMIT { return None; }
    var head := U32(|t.name|) + t.name + U32(|shape|);
    var dims := [];
    for i := 0 to |shape|
      invariant Fits(shape[..i]) && dims == Words(shape[..i])
    {
      if shape[i] >= WORD_LIMIT { return None; }
      WordsAppend(shape[..i], shape[i]);
      assert shape[..i + 1] == shape[..i] + [shape[i]];
      dims := dims + U32(shape[i]);
    }
    assert shape[..|shape|] == shape;
    return Some(head + dims + Words(t.data));
  }

  /** The label section. */
  method WriteLabels(labels: seq<seq<Byte>>) returns (out: Option<seq<Byte>>)
    ensures out == if forall i :: 0 <= i < |labels| ==> |labels[i]| < WORD_LIMIT then Some(TextsBytes(labels)) else None
  {
    var bytes := [];
    for i := 0 to |labels|
      invariant (forall j :: 0 <= j < i ==> |labels[j]| < WORD_LIMIT) && bytes == TextsBytes(labels[..i])
    {
      if |labels[i]| >= WORD_LIMIT { return None; }
      TextsAppend(labels[..i], labels[i]);
      assert labels[..i + 1] == labels[..i] + [labels[i]];
      bytes := bytes + U32(|labels[i]|) + labels[i];
      RegroupEnd(TextsBytes(labels[..i]), U32(|labels[i]|), labels[i]);
    }
    assert labels[..|labels|] == labels;
    return Some(bytes);
  }

  /** The tensor section. */
  method WriteTensors(ts: seq<Tensor>) returns (out: Option<seq<Byte>>)
    ensures out == if TensorsFit(ts) then Some(TensorsBytes(ts)) else None
  {
    var bytes := [];
    for i := 0 to |ts|
      invariant TensorsFit(ts[..i]) && bytes == TensorsBytes(ts[..i])
    {
      var one := WriteTensor(ts[i]);
      if one.None? { return None; }
      TensorsAppend(ts[..i], ts[i]);
      assert ts[..i + 1] == ts[..i] + [ts[i]];
      bytes := bytes + one.value;
    }
    assert ts[..|ts|] == ts;
    return Some(bytes);
  }

  /** The script's output file. */
  method WriteFile(ts: seq<Tensor>, labels: seq<seq<Byte>>) returns (out: Option<seq<Byte>>)
    ensures out == if FileFits(ts, labels) then Some(FileBytes(ts, labels)) else None
  {
    if |ts| >= WORD_LIMIT { return None; }
    var tensors := WriteTensors(ts);
    if tensors.None? || |labels| >= WORD_LIMIT { return None; }
    var names := WriteLabels(labels);
    if names.None? { return None; }
    return Some(Magic + U32(1) + U32(|ts|) + tensors.value + U32(|labels|) + names.value);
  }

  lemma {:induction false} ShapeAppend(s: Stream, n: nat)
    ensures var (ds, s1) := ReadShape(s, n);
            var (d, s2) := ReadU32(s1);
            ReadShape(s, n + 1) == (ds + [d], s2)
    decreases n
  {
    var (d, s1) := ReadU32(s);
    if n == 0 {
      assert ReadShape(s1, 0) == ([], s1) && [d] + [] == [] + [d];
    } else {
      ShapeAppend(s1, n - 1);
      var (ds, s2) := ReadShape(s1, n - 1);
      var (last, s3) := ReadU32(s2);
      assert [d] + (ds + [last]) == ([d] + ds) + [last];
    }
  }

  /** One round of loadFromFile's tensor loop. */
  method LoadTensor(s: Stream) returns (r: Result<(seq<Byte>, seq<nat>, Stream)>)
    ensures r == ReadTensor(s)
  {
    var (name, s1) := ReadText(s);
    if name.None? { return Err(TensorName); }
    var (dims, s2) := ReadU32(s1);
    var shape, at := [], s2;
    for i := 0 to dims
      invariant (shape, at) == ReadShape(s2, i)
    {
      ShapeAppend(s2, i);
      var (d, next) := ReadU32(at);
      shape, at := shape + [d], next;
    }
    var (data, s4) := ReadFloats(at, Count(shape));
    if data.None? { return Err(TensorData); }
    return Ok((name.value, data.value, s4));
  }

  /** The tensor just read joins those found; a later one of the same name replaces it. */
  method LoadNext(p: Progress, ghost step: Progress -> Result<Progress>) returns (r: Result<Progress>)
    requires IsRound(step)
    ensures r == step(p)
  {
    assert step(p) == AddTensor(p);
    var tensor := LoadTensor(p.at);
    if tensor.Err? { return Err(tensor.error); }
    var (name, data, after) := tensor.value;
    return Ok(Progress(p.found[name := data], after));
  }

  /** The tensor loop, for a round under any name. */
  method LoadRounds(start: Progress, n: nat, ghost step: Progress -> Result<Progress>) returns (r: Result<Progress>)
    requires IsRound(step)
    ensures r == Repeat(step, start, n)
  {
    var p := start;
    for i := 0 to n
      invariant Repeat(step, start, n) == Repeat(step, p, n - i)
    {
      var next := LoadNext(p, step);
      if next.Err? { return next; }
      p := next.value;
    }
    return Ok(p);
  }

  method LoadTensors(start: Progress, n: nat) returns (r: Result<Progress>)
    ensures r == Repeat(AddTensor, start, n)
  {
    r := LoadRounds(start, n, AddTensor);
  }

  /** loadFromFile computes Load. */
  method LoadFile(file: seq<Byte>, required: set<seq<Byte>>) returns (r: Result<Model>)
    ensures r == Load(file, required)
  {
    if |file| < 4 || file[..4] != Magic { return Err(InvalidMagic); }
    var (version, s1) := ReadU32(Stream(file[4..], true));
    if version != 1 { return Err(UnsupportedVersion); }
    var (n, s2) := ReadU32(s1);
    var tensors := LoadTensors(Progress(map[], s2), n);
    if tensors.Err? { return Err(tensors.error); }
    var Progress(found, s3) := tensors.value;
    var (m, s4) := ReadU32(s3);
    var labels := LoadLabels(s4, m);
    if labels.Err? { return Err(labels.error); }
    if !(required <= found.Keys) { return Err(MissingTensor); }
    return Ok(Model(map k | k in required :: found[k], labels.value));
  }

  method LoadLabels(start: Stream, n: nat) returns (r: Result<seq<seq<Byte>>>)
    ensures r == ReadLabels(start, n)
  {
    var labels: seq<seq<Byte>>, s := [], start;
    ghost var all := ReadLabels(start, n);
    if all.Ok? { assert [] + all.value == all.value; }
    for i := 0 to n
      invariant |labels| == i
      invariant ReadLabels(start, n) == match ReadLabels(s, n - i) case Err(e) => Err(e) case Ok(ls) => Ok(labels + ls)
    {
      var (text, next) := ReadText(s);
      if text.None? { return Err(Label); }
      ghost var rest := ReadLabels(next, n - i - 1);
      if rest.Ok? { assert labels + ([text.value] + rest.value) == (labels + [text.value]) + rest.value; }
      labels, s := labels + [text.value], next;
    }
    assert labels + [] == labels;
    return Ok(labels);
  }
}
