/**
 * CuVSVectorsWriter: the segment writer. It registers fields, and on flush
 * or merge hands each field's dataset to the build policy, appends the
 * sub-indexes to the index blob and one row per field to the metadata
 * stream; finish closes the rows with the end marker and seals both streams.
 */
module VectorsWriter {
  import opened Wrappers
  import opened Lucene
  import opened Failures
  import opened Streams
  import opened IndexTypes
  import opened Datasets
  import opened Policy

  /** Java's (byte) cast: keep the low eight bits as a signed value. */
  function ToJavaByte(i: int): (b: int)
    ensures -128 <= b < 128
    ensures (b - i) % 256 == 0
    ensures 0 <= i < 128 ==> b == i
  {
    (i + 128) % 256 - 128
  }

  /**
   * distFuncToOrd: the (byte-cast) position of func in the list of
   * similarity functions, or IllegalArgumentException when it is not listed.
   */
  method DistFuncToOrd(functions: seq<VectorSimilarityFunction>, func: VectorSimilarityFunction)
    returns (r: Result<int, Error>)
    ensures r.Err? <==> func !in functions
    ensures r.Err? ==> r.error == InvalidDistanceFunction(func)
    ensures r.Ok? ==> exists i :: (0 <= i < |functions| && functions[i] == func
      && r.value == ToJavaByte(i) && forall j :: 0 <= j < i ==> functions[j] != func)
  {
    var i := 0;
    while i < |functions|
      invariant 0 <= i <= |functions|
      invariant forall j :: 0 <= j < i ==> functions[j] != func
    {
      if functions[i] == func {
        return Ok(ToJavaByte(i));
      }
      i := i + 1;
    }
    return Err(InvalidDistanceFunction(func));
  }

  /** distFuncToOrd over SIMILARITY_FUNCTIONS, which lists every function: its position there. */
  method SimilarityToOrd(func: VectorSimilarityFunction) returns (ord: int)
    ensures ord == SimilarityOrdinal(func)
  {
    ghost var o := SimilarityOrdinal(func);
    assert SIMILARITY_FUNCTIONS[o] == func;
    var r := DistFuncToOrd(SIMILARITY_FUNCTIONS, func);
    assert r.value == o by {
      var i :| 0 <= i < |SIMILARITY_FUNCTIONS| && SIMILARITY_FUNCTIONS[i] == func
        && r.value == ToJavaByte(i) && forall j :: 0 <= j < i ==> SIMILARITY_FUNCTIONS[j] != func;
      assert i == o;
    }
    ord := r.value;
  }

  /** CuVSFieldWriter: a registered field and the vectors buffered for it. */
  datatype FieldBuf<V> = FieldBuf(info: FieldInfo, vectors: seq<V>)

  /** The metadata row writeMeta writes for a field with count vectors placed at p. */
  function FieldRow(info: FieldInfo, count: nat, p: Placement): Row
  {
    Row(info.number, info.encoding.Ordinal(), SimilarityOrdinal(info.similarity),
        info.dimension, count, p)
  }

  /** The metadata writes of a field: its row, or nothing when an exception escaped. */
  function FieldMeta(info: FieldInfo, count: nat, placement: Result<Placement, Error>): seq<MetaWrite>
  {
    if placement.Ok? then RowWrites(FieldRow(info, count, placement.value)) else []
  }

  function Status(placement: Result<Placement, Error>): Result<(), Error>
  {
    if placement.Ok? then Ok(()) else Err(placement.error)
  }

  /** The vectors of the merged (doc, vector) pairs, in iteration order. */
  function Values<V>(merged: seq<(nat, V)>): seq<V>
  {
    seq(|merged|, i requires 0 <= i < |merged| => merged[i].1)
  }

  /** For a sorted flush, every field comes with a new-to-old ordinal permutation. */
  predicate SortMapsFit<V>(fields: seq<FieldBuf<V>>, new2OldOrds: Option<seq<seq<int>>>)
  {
    new2OldOrds.Some? ==>
      && |new2OldOrds.value| == |fields|
      && forall k :: 0 <= k < |fields| ==> IsPermutation(new2OldOrds.value[k], |fields[k].vectors|)
  }

  /**
   * The fields as flush hands them to writeFieldInternal: as buffered, or,
   * in a sorted segment, with each field's vectors reordered by its
   * new-to-old permutation.
   */
  function FlushedFields<V>(fields: seq<FieldBuf<V>>, new2OldOrds: Option<seq<seq<int>>>): (r: seq<FieldBuf<V>>)
    requires SortMapsFit(fields, new2OldOrds)
    ensures |r| == |fields|
    ensures forall k :: 0 <= k < |fields| ==> r[k].info == fields[k].info && |r[k].vectors| == |fields[k].vectors|
  {
    if new2OldOrds.None? then fields
    else seq(|fields|, k requires 0 <= k < |fields| =>
           FieldBuf(fields[k].info, Reorder(fields[k].vectors, new2OldOrds.value[k])))
  }

  /** What a flush appends to the blob, the rows it writes, and how it ends. */
  datatype FlushOutcome = FlushOutcome(bytes: seq<byte>, rows: seq<Row>, status: Result<(), Error>)

  function Prepend(bytes: seq<byte>, rows: seq<Row>, o: FlushOutcome): FlushOutcome
  {
    FlushOutcome(bytes + o.bytes, rows + o.rows, o.status)
  }

  /** What writing a dataset appends to the blob when its file pointer is at base. */
  type FieldWriter<!V> = (seq<V>, nat) -> FieldWrite

  /**
   * flush from field k on, with the blob's file pointer at base, each field
   * written by write: fields in registration order, stopping at the first
   * exception.
   */
  function FlushFrom<V>(write: FieldWriter<V>, fields: seq<FieldBuf<V>>,
                        k: nat, base: nat): FlushOutcome
    requires k <= |fields|
    decreases |fields| - k
  {
    if k == |fields| then FlushOutcome([], [], Ok(()))
    else
      var ds := fields[k].vectors;
      var w := write(ds, base);
      if w.placement.Err? then FlushOutcome(w.bytes, [], Err(w.placement.error))
      else
        Prepend(w.bytes, [FieldRow(fields[k].info, |ds|, w.placement.value)],
                FlushFrom(write, fields, k + 1, base + |w.bytes|))
  }

  /** Bytes the rows' sub-indexes occupy in the blob. */
  function SumLengths(rows: seq<Row>): nat
  {
    if rows == [] then 0 else rows[0].placement.TotalLength() + SumLengths(rows[1..])
  }

  /**
   * A flush writes one row per field, in registration order, each with the
   * field's number, encoding, similarity and dimension and its vector count;
   * it succeeds exactly when every remaining field got its row.
   */
  lemma {:induction false} FlushRowsFollowFields<V>(write: FieldWriter<V>, fields: seq<FieldBuf<V>>,
                                                    k: nat, base: nat)
    requires k <= |fields|
    ensures var f := FlushFrom(write, fields, k, base);
      && |f.rows| <= |fields| - k
      && (f.status.Ok? <==> |f.rows| == |fields| - k)
      && forall i :: 0 <= i < |f.rows| ==>
           f.rows[i] == FieldRow(fields[k + i].info, |fields[k + i].vectors|, f.rows[i].placement)
    decreases |fields| - k
  {
    if k < |fields| {
      var w := write(fields[k].vectors, base);
      if w.placement.Ok? {
        var rest := FlushFrom(write, fields, k + 1, base + |w.bytes|);
        FlushRowsFollowFields(write, fields, k + 1, base + |w.bytes|);
        var rows := FlushFrom(write, fields, k, base).rows;
        assert rows == [FieldRow(fields[k].info, |fields[k].vectors|, w.placement.value)] + rest.rows;
        forall i | 0 < i < |rows|
          ensures rows[i] == FieldRow(fields[k + i].info, |fields[k + i].vectors|, rows[i].placement)
        {
          assert rows[i] == rest.rows[i - 1];
        }
      }
    }
  }

  /**
   * What writeFieldInternal promises about where a field goes: an empty
   * dataset appends nothing and gets the all-zero placement; otherwise the
   * sub-indexes tile what was appended, from the file pointer on.
   */
  ghost predicate PlacesAtPointer<V(!new)>(write: FieldWriter<V>)
  {
    forall ds, at :: write(ds, at).placement.Ok? ==>
      if |ds| == 0 then write(ds, at) == FieldWrite([], Ok(EMPTY_PLACEMENT))
      else
        && write(ds, at).placement.value.cagraOffset == at
        && write(ds, at).placement.value.Tiles()
        && |write(ds, at).bytes| == write(ds, at).placement.value.TotalLength()
  }

  /** FieldSpec places every field at the file pointer. */
  lemma FieldSpecPlacesAtPointer<V(!new)>(cfg: Config, build: Builder<V>, write: FieldWriter<V>)
    requires forall ds, at :: write(ds, at) == FieldSpec(cfg, build, ds, at)
    ensures PlacesAtPointer(write)
  {
    forall ds, at | write(ds, at).placement.Ok?
      ensures if |ds| == 0 then write(ds, at) == FieldWrite([], Ok(EMPTY_PLACEMENT))
        else
          && write(ds, at).placement.value.cagraOffset == at
          && write(ds, at).placement.value.Tiles()
          && |write(ds, at).bytes| == write(ds, at).placement.value.TotalLength()
    {
      if |ds| == 0 {
        EmptyFieldIsZeroRow(cfg, build, ds, at);
      } else {
        PlacementTilesBlob(cfg, build, ds, at);
      }
    }
  }

  /**
   * A flush appends at least the bytes its rows' sub-indexes occupy, and
   * exactly those when it succeeds (a failed field leaves its partial
   * bytes behind).
   */
  lemma {:induction false} FlushBlobLength<V(!new)>(write: FieldWriter<V>, fields: seq<FieldBuf<V>>,
                                                    k: nat, base: nat)
    requires k <= |fields| && PlacesAtPointer(write)
    ensures var f := FlushFrom(write, fields, k, base);
      && SumLengths(f.rows) <= |f.bytes|
      && (f.status.Ok? ==> |f.bytes| == SumLengths(f.rows))
    decreases |fields| - k
  {
    if k < |fields| {
      var ds := fields[k].vectors;
      var w := write(ds, base);
      if w.placement.Ok? {
        var rest := FlushFrom(write, fields, k + 1, base + |w.bytes|);
        FlushBlobLength(write, fields, k + 1, base + |w.bytes|);
        var rows := [FieldRow(fields[k].info, |ds|, w.placement.value)] + rest.rows;
        assert rows[1..] == rest.rows;
      }
    }
  }

  /**
   * Rows laid out back to back from at on: a row with vectors starts at the
   * current position and its sub-indexes tile what it occupies; a row without
   * vectors holds the all-zero placement rather than the file pointer and
   * occupies nothing.
   */
  predicate LaidOutFrom(rows: seq<Row>, at: nat)
    decreases |rows|
  {
    rows != [] ==>
      && (if rows[0].count == 0 then rows[0].placement == EMPTY_PLACEMENT
          else rows[0].placement.cagraOffset == at && rows[0].placement.Tiles())
      && LaidOutFrom(rows[1..], at + rows[0].placement.TotalLength())
  }

  /** Laid out from at on: each row with vectors starts where the rows before it end. */
  lemma {:induction false} LaidOutOffsets(rows: seq<Row>, at: nat)
    requires LaidOutFrom(rows, at)
    ensures forall i :: 0 <= i < |rows| ==>
      if rows[i].count == 0 then rows[i].placement == EMPTY_PLACEMENT
      else rows[i].placement.cagraOffset == at + SumLengths(rows[..i]) && rows[i].placement.Tiles()
    decreases |rows|
  {
    if rows != [] {
      var rest := rows[1..];
      var next := at + rows[0].placement.TotalLength();
      LaidOutOffsets(rest, next);
      forall i | 0 <= i < |rows|
        ensures if rows[i].count == 0 then rows[i].placement == EMPTY_PLACEMENT
          else rows[i].placement.cagraOffset == at + SumLengths(rows[..i]) && rows[i].placement.Tiles()
      {
        if i > 0 {
          assert rows[i] == rest[i - 1];
          assert rows[..i][1..] == rest[..i - 1];
        }
      }
    }
  }

  /** A row placed at at, followed by rows laid out from where it ends. */
  lemma LaidOutCons(row: Row, rest: seq<Row>, at: nat)
    requires if row.count == 0 then row.placement == EMPTY_PLACEMENT
             else row.placement.cagraOffset == at && row.placement.Tiles()
    requires LaidOutFrom(rest, at + row.placement.TotalLength())
    ensures LaidOutFrom([row] + rest, at)
  {
    assert ([row] + rest)[1..] == rest;
  }

  /** One successful field write under PlacesAtPointer: its placement and what it appended. */
  lemma PlacedAt<V(!new)>(write: FieldWriter<V>, ds: seq<V>, at: nat)
    requires PlacesAtPointer(write) && write(ds, at).placement.Ok?
    ensures var p := write(ds, at).placement.value;
      && (if |ds| == 0 then p == EMPTY_PLACEMENT else p.cagraOffset == at && p.Tiles())
      && |write(ds, at).bytes| == p.TotalLength()
  {
  }

  /** The rows of a flush are laid out back to back from the file pointer it started at. */
  lemma {:induction false} FlushRowPlacements<V(!new)>(write: FieldWriter<V>, fields: seq<FieldBuf<V>>,
                                                       k: nat, base: nat)
    requires k <= |fields| && PlacesAtPointer(write)
    ensures LaidOutFrom(FlushFrom(write, fields, k, base).rows, base)
    decreases |fields| - k
  {
    if k < |fields| {
      var ds := fields[k].vectors;
      var w := write(ds, base);
      if w.placement.Ok? {
        var next := base + |w.bytes|;
        var rest := FlushFrom(write, fields, k + 1, next).rows;
        FlushRowPlacements(write, fields, k + 1, next);
        var row := FieldRow(fields[k].info, |ds|, w.placement.value);
        FlushFromContinues(write, fields, k, base, w);
        PlacedAt(write, ds, base);
        LaidOutCons(row, rest, base);
      }
    }
  }

  /**
   * The three-field flush: with CAGRA and brute force requested and a native
   * library that always serializes something, a field without vectors gets
   * the all-zero row, a single-vector field only a brute-force index (the
   * static substitution), and a five-vector field both indexes.
   */
  lemma ThreeFieldFlush<V>(cfg: Config, build: Builder<V>, write: FieldWriter<V>,
                           fields: seq<FieldBuf<V>>, base: nat)
    requires cfg.indexType == CAGRA_AND_BRUTE_FORCE
    requires forall kind, params, ds :: build(kind, params, ds).Built? && |build(kind, params, ds).bytes| > 0
    requires forall ds, at :: write(ds, at) == FieldSpec(cfg, build, ds, at)
    requires |fields| == 3
    requires |fields[0].vectors| == 0 && |fields[1].vectors| == 1 && |fields[2].vectors| == 5
    ensures var f := FlushFrom(write, fields, 0, base);
      && f.status == Ok(()) && |f.rows| == 3
      && f.rows[0].placement == EMPTY_PLACEMENT
      && f.rows[1].placement.cagraLength == 0 && f.rows[1].placement.bruteForceLength > 0
      && f.rows[2].placement.cagraLength > 0 && f.rows[2].placement.bruteForceLength > 0
      && f.rows[1].placement.hnswLength == 0 && f.rows[2].placement.hnswLength == 0
  {
    var w0 := write(fields[0].vectors, base);
    var w1 := write(fields[1].vectors, base);
    var w2 := write(fields[2].vectors, base + |w1.bytes|);
    assert w0 == FieldWrite([], Ok(EMPTY_PLACEMENT));
    SingleVectorGetsBruteForce(cfg, build, fields[1].vectors, base);
    assert build(BruteForceKind, BruteForceParams(BRUTE_FORCE_WRITER_THREADS), fields[1].vectors).Built?;
    assert w1.placement.Ok? && w1.placement.value.cagraLength == 0 && w1.placement.value.bruteForceLength > 0;
    var params := CagraParams(cfg.writerThreads, cfg.intGraphDegree, cfg.graphDegree, NN_DESCENT);
    assert build(CagraKind, params, fields[2].vectors).Built?;
    assert build(BruteForceKind, BruteForceParams(BRUTE_FORCE_WRITER_THREADS), fields[2].vectors).Built?;
    assert w2.placement.Ok? && w2.placement.value.cagraLength > 0 && w2.placement.value.bruteForceLength > 0;
    assert FlushFrom(write, fields, 3, base + |w1.bytes| + |w2.bytes|) == FlushOutcome([], [], Ok(()));
    var f2 := FlushFrom(write, fields, 2, base + |w1.bytes|);
    assert f2.rows == [FieldRow(fields[2].info, 5, w2.placement.value)] && f2.status == Ok(());
    var f1 := FlushFrom(write, fields, 1, base);
    assert f1.rows == [FieldRow(fields[1].info, 1, w1.placement.value)] + f2.rows && f1.status == Ok(());
    assert FlushFrom(write, fields, 0, base).rows == [FieldRow(fields[0].info, 0, EMPTY_PLACEMENT)] + f1.rows;
  }

  /** CuVSVectorsWriter's state: registered fields, the two streams and the lifecycle flag. */
  class Writer<V(!new)> {
    const config: Config
    /** The native library behind the CuVSResources handle. */
    const build: Builder<V>
    /** The index header CodecUtil writes first; its bytes are not modelled. */
    const indexHeader: seq<byte>
    /** The index footer CodecUtil writes on finish; its bytes are not modelled. */
    const indexFooter: seq<byte>
    /** writeFieldInternal as a function of the dataset and the file pointer: FieldSpec under config and build. */
    ghost const fieldWrite: FieldWriter<V>

    var fields: seq<FieldBuf<V>>
    /** The index stream; its file pointer is |blob|. */
    var blob: seq<byte>
    var meta: seq<MetaWrite>
    var finished: bool

    ghost predicate Valid()
      reads this
    {
      && indexHeader <= blob
      && |meta| >= 1 && meta[0] == Header
      && forall ds, base {:trigger FieldSpec(config, build, ds, base)} ::
           fieldWrite(ds, base) == FieldSpec(config, build, ds, base)
    }

    /** Both streams start with their header; no field is registered yet. */
    constructor (config: Config, build: Builder<V>, indexHeader: seq<byte>, indexFooter: seq<byte>)
      ensures Valid()
      ensures this.config == config && this.build == build
      ensures this.indexHeader == indexHeader && this.indexFooter == indexFooter
      ensures fields == [] && blob == indexHeader && meta == [Header] && !finished
    {
      this.config := config;
      this.build := build;
      this.indexHeader := indexHeader;
      this.indexFooter := indexFooter;
      fieldWrite := (ds: seq<V>, base: nat) => FieldSpec(config, build, ds, base);
      fields := [];
      blob := indexHeader;
      meta := [Header];
      finished := false;
    }

    /**
     * addField: a non-FLOAT32 field is refused and nothing changes; otherwise
     * a new, empty buffer is registered after all earlier ones and its
     * position is returned as the handle of the per-document sink.
     */
    method AddField(info: FieldInfo) returns (r: Result<nat, Error>)
      requires Valid()
      modifies this`fields
      ensures Valid()
      ensures info.encoding != FLOAT32 ==> r == Err(UnsupportedEncoding(info.encoding)) && fields == old(fields)
      ensures info.encoding == FLOAT32 ==> r == Ok(|old(fields)|) && fields == old(fields) + [FieldBuf(info, [])]
    {
      if info.encoding != FLOAT32 {
        return Err(UnsupportedEncoding(info.encoding));
      }
      fields := fields + [FieldBuf(info, [])];
      r := Ok(|fields| - 1);
    }

    /** The caller adding one document's vector through the sink of field k. */
    method AddValue(k: nat, v: V)
      requires Valid() && k < |fields|
      modifies this`fields
      ensures Valid()
      ensures fields == old(fields)[k := FieldBuf(old(fields)[k].info, old(fields)[k].vectors + [v])]
    {
      fields := fields[k := FieldBuf(fields[k].info, fields[k].vectors + [v])];
    }

    /** writeMeta: the row's eleven writes, the similarity given by its list position. */
    method WriteMeta(info: FieldInfo, count: nat, p: Placement)
      requires Valid()
      modifies this`meta
      ensures Valid()
      ensures meta == old(meta) + RowWrites(FieldRow(info, count, p))
    {
      meta := meta + [Int32(info.number), Int32(info.encoding.Ordinal())];
      var ord := SimilarityToOrd(info.similarity);
      meta := meta + [Int32(ord), Int32(info.dimension), Int32(count),
                      VLong(p.cagraOffset), VLong(p.cagraLength),
                      VLong(p.bruteForceOffset), VLong(p.bruteForceLength),
                      VLong(p.hnswOffset), VLong(p.hnswLength)];
    }

    /** writeEmpty: the row of a field without vectors, all six values zero. */
    method WriteEmpty(info: FieldInfo)
      requires Valid()
      modifies this`meta
      ensures Valid()
      ensures meta == old(meta) + RowWrites(FieldRow(info, 0, EMPTY_PLACEMENT))
    {
      WriteMeta(info, 0, EMPTY_PLACEMENT);
    }

    /**
     * The CAGRA step of writeFieldInternal: writeCagraIndex appends what it
     * wrote; a tolerated failure switches the type to BRUTE_FORCE, any other
     * escapes.
     */
    method CagraStep(indexType: IndexType, dataset: seq<V>) returns (t: IndexType, escaped: Option<Error>)
      requires indexType.Cagra()
      modifies this`blob
      ensures var c := CagraPhase(config, build, indexType, dataset);
        blob == old(blob) + c.bytes && t == c.indexType && escaped == c.error
    {
      var attempt := GraphAttempt(config, build, CagraKind, dataset);
      blob := blob + attempt.Written();
      t, escaped := indexType, None;
      if attempt.Threw? {
        escaped := HandleThrowableWithIgnore(attempt.error, CANNOT_GENERATE_CAGRA);
        if escaped.None? {
          t := BRUTE_FORCE;
        }
      }
    }

    /** The brute-force step of writeFieldInternal: writeBruteForceIndex, every failure escapes. */
    method BruteForceStep(dataset: seq<V>) returns (escaped: Option<Error>)
      modifies this`blob
      ensures var a := BruteForceAttempt(build, dataset);
        blob == old(blob) + a.Written() && escaped == (if a.Threw? then Some(a.error) else None)
    {
      var attempt := BruteForceAttempt(build, dataset);
      blob := blob + attempt.Written();
      escaped := if attempt.Threw? then Some(attempt.error) else None;
    }

    /** The HNSW step of writeFieldInternal: writeHNSWIndex; a tolerated failure is dropped. */
    method HnswStep(dataset: seq<V>) returns (escaped: Option<Error>)
      requires |dataset| > MIN_CAGRA_INDEX_SIZE
      modifies this`blob
      ensures var h := HnswPhase(config, build, HNSW, dataset);
        blob == old(blob) + h.bytes && escaped == h.error
    {
      var attempt := GraphAttempt(config, build, HnswKind, dataset);
      blob := blob + attempt.Written();
      escaped := None;
      if attempt.Threw? {
        escaped := HandleThrowableWithIgnore(attempt.error, CANNOT_GENERATE_CAGRA);
      }
    }

    /**
     * The try block of writeFieldInternal for a non-empty dataset: the three
     * steps in order, each offset the file pointer before its step and each
     * length the pointer difference after it.
     */
    method WriteIndexes(dataset: seq<V>) returns (placement: Result<Placement, Error>)
      requires |dataset| > 0
      modifies this`blob
      ensures var w := FieldSpec(config, build, dataset, |old(blob)|);
        blob == old(blob) + w.bytes && placement == w.placement
    {
      var cagraIndexOffset, cagraIndexLength := 0, 0;
      var bruteForceIndexOffset, bruteForceIndexLength := 0, 0;
      var hnswIndexOffset, hnswIndexLength := 0, 0;

      // workaround for the minimum number of vectors for CAGRA
      var indexType := EffectiveType(config.indexType, |dataset|);
      ghost var c := CagraPhase(config, build, indexType, dataset);

      cagraIndexOffset := |blob|;
      if indexType.Cagra() {
        var escaped;
        indexType, escaped := CagraStep(indexType, dataset);
        if escaped.Some? {
          return Err(escaped.value);
        }
        cagraIndexLength := |blob| - cagraIndexOffset;
      }

      ghost var b := BruteForcePhase(build, indexType, dataset);
      bruteForceIndexOffset := |blob|;
      if indexType.BruteForce() {
        var escaped := BruteForceStep(dataset);
        if escaped.Some? {
          return Err(escaped.value);
        }
        bruteForceIndexLength := |blob| - bruteForceIndexOffset;
      }

      ghost var h := HnswPhase(config, build, indexType, dataset);
      hnswIndexOffset := |blob|;
      if indexType.Hnsw() {
        if |dataset| > MIN_CAGRA_INDEX_SIZE {
          var escaped := HnswStep(dataset);
          if escaped.Some? {
            return Err(escaped.value);
          }
        }
        hnswIndexLength := |blob| - hnswIndexOffset;
      }

      placement := Ok(Placement(
        cagraIndexOffset, cagraIndexLength,
        bruteForceIndexOffset, bruteForceIndexLength,
        hnswIndexOffset, hnswIndexLength));
    }

    /**
     * writeFieldInternal: the blob grows by what FieldSpec appends, and the
     * field's row follows unless an exception escaped.
     */
    method WriteFieldInternal(info: FieldInfo, dataset: seq<V>) returns (r: Result<(), Error>)
      requires Valid()
      modifies this`blob, this`meta
      ensures Valid()
      ensures var w := FieldSpec(config, build, dataset, |old(blob)|);
        && blob == old(blob) + w.bytes
        && meta == old(meta) + FieldMeta(info, |dataset|, w.placement)
        && r == Status(w.placement)
    {
      if |dataset| == 0 {
        WriteEmpty(info);
        return Ok(());
      }
      var placement := WriteIndexes(dataset);
      if placement.Err? {
        return Err(placement.error);
      }
      WriteMeta(info, |dataset|, placement.value);
      r := Ok(());
    }

    /** writeField: the dataset is the buffered vectors in ordinal order. */
    method WriteField(fieldData: FieldBuf<V>) returns (r: Result<(), Error>)
      requires Valid()
      modifies this`blob, this`meta
      ensures Valid()
      ensures var w := FieldSpec(config, build, fieldData.vectors, |old(blob)|);
        && blob == old(blob) + w.bytes
        && meta == old(meta) + FieldMeta(fieldData.info, |fieldData.vectors|, w.placement)
        && r == Status(w.placement)
    {
      var dataset := CopyVectors(fieldData.vectors);
      r := WriteFieldInternal(fieldData.info, dataset);
    }

    /** writeSortingField: the dataset is the buffered vectors reordered by new2OldOrd. */
    method WriteSortingField(fieldData: FieldBuf<V>, new2OldOrd: seq<int>) returns (r: Result<(), Error>)
      requires Valid()
      requires |new2OldOrd| == |fieldData.vectors|
      requires forall i :: 0 <= i < |new2OldOrd| ==> 0 <= new2OldOrd[i] < |fieldData.vectors|
      modifies this`blob, this`meta
      ensures Valid()
      ensures var w := FieldSpec(config, build, Reorder(fieldData.vectors, new2OldOrd), |old(blob)|);
        && blob == old(blob) + w.bytes
        && meta == old(meta) + FieldMeta(fieldData.info, |fieldData.vectors|, w.placement)
        && r == Status(w.placement)
    {
      var dataset := ReorderVectors(fieldData.vectors, new2OldOrd);
      assert dataset == Reorder(fieldData.vectors, new2OldOrd);
      r := WriteFieldInternal(fieldData.info, dataset);
    }

    /** One iteration of flush's loop: field k, sorted or not; w is what it writes. */
    method FlushField(k: nat, new2OldOrds: Option<seq<seq<int>>>) returns (r: Result<(), Error>, ghost w: FieldWrite)
      requires Valid() && k < |fields| && SortMapsFit(fields, new2OldOrds)
      modifies this`blob, this`meta
      ensures Valid()
      ensures w == fieldWrite(FlushedFields(fields, new2OldOrds)[k].vectors, |old(blob)|)
      ensures blob == old(blob) + w.bytes
      ensures meta == old(meta) + FieldMeta(fields[k].info, |fields[k].vectors|, w.placement)
      ensures r == Status(w.placement)
    {
      w := FieldSpec(config, build, FlushedFields(fields, new2OldOrds)[k].vectors, |blob|);
      if new2OldOrds.None? {
        r := WriteField(fields[k]);
      } else {
        r := WriteSortingField(fields[k], new2OldOrds.value[k]);
      }
    }

    /**
     * One iteration of flush's loop. Since the streams held start and
     * startMeta, the earlier iterations wrote doneBytes and the rows
     * doneRows; afterwards the whole flush is what has been written
     * followed by the flush of the fields after k, or, when field k
     * failed, exactly what has been written.
     */
    method FlushStep(k: nat, new2OldOrds: Option<seq<seq<int>>>, ghost start: seq<byte>, ghost startMeta: seq<MetaWrite>,
                     ghost doneBytes: seq<byte>, ghost doneRows: seq<Row>)
      returns (r: Result<(), Error>, ghost bytes: seq<byte>, ghost rows: seq<Row>)
      requires Valid() && k < |fields| && SortMapsFit(fields, new2OldOrds)
      requires blob == start + doneBytes && meta == startMeta + RowsWrites(doneRows)
      requires FlushFrom(fieldWrite, FlushedFields(fields, new2OldOrds), 0, |start|)
        == Prepend(doneBytes, doneRows, FlushFrom(fieldWrite, FlushedFields(fields, new2OldOrds), k, |blob|))
      modifies this`blob, this`meta
      ensures Valid()
      ensures blob == start + bytes && meta == startMeta + RowsWrites(rows)
      ensures r.Ok? ==> (FlushFrom(fieldWrite, FlushedFields(fields, new2OldOrds), 0, |start|)
        == Prepend(bytes, rows, FlushFrom(fieldWrite, FlushedFields(fields, new2OldOrds), k + 1, |blob|)))
      ensures r.Err? ==> FlushFrom(fieldWrite, FlushedFields(fields, new2OldOrds), 0, |start|) == FlushOutcome(bytes, rows, r)
    {
      ghost var base := |blob|;
      ghost var flushed := FlushedFields(fields, new2OldOrds);
      ghost var w;
      r, w := FlushField(k, new2OldOrds);
      AppendAssoc(start, doneBytes, w.bytes);
      if r.Err? {
        FlushFromStops(fieldWrite, flushed, k, base, w);
        PrependNothing(doneBytes, doneRows, w.bytes, r);
        return r, doneBytes + w.bytes, doneRows;
      }
      ghost var row := FieldRow(fields[k].info, |fields[k].vectors|, w.placement.value);
      FlushFromContinues(fieldWrite, flushed, k, base, w);
      PrependTwice(doneBytes, doneRows, w.bytes, [row], FlushFrom(fieldWrite, flushed, k + 1, |blob|));
      RowsWritesAppend(doneRows, row);
      AppendAssoc(startMeta, RowsWrites(doneRows), RowWrites(row));
      bytes, rows := doneBytes + w.bytes, doneRows + [row];
    }

    /**
     * flush: every registered field in registration order, sorted when the
     * segment is sorted; the first escaping exception ends the flush.
     */
    method Flush(new2OldOrds: Option<seq<seq<int>>>) returns (r: Result<(), Error>)
      requires Valid() && SortMapsFit(fields, new2OldOrds)
      modifies this`blob, this`meta
      ensures Valid()
      ensures blob == old(blob) + FlushFrom(fieldWrite, FlushedFields(fields, new2OldOrds), 0, |old(blob)|).bytes
      ensures meta == old(meta) + RowsWrites(FlushFrom(fieldWrite, FlushedFields(fields, new2OldOrds), 0, |old(blob)|).rows)
      ensures r == FlushFrom(fieldWrite, FlushedFields(fields, new2OldOrds), 0, |old(blob)|).status
    {
      ghost var flushed := FlushedFields(fields, new2OldOrds);
      ghost var whole := FlushFrom(fieldWrite, flushed, 0, |blob|);
      ghost var doneBytes: seq<byte>, doneRows: seq<Row> := [], [];
      var k := 0;
      while k < |fields|
        invariant 0 <= k <= |fields|
        invariant Valid()
        invariant blob == old(blob) + doneBytes && meta == old(meta) + RowsWrites(doneRows)
        invariant whole == Prepend(doneBytes, doneRows, FlushFrom(fieldWrite, flushed, k, |blob|))
      {
        r, doneBytes, doneRows := FlushStep(k, new2OldOrds, old(blob), old(meta), doneBytes, doneRows);
        if r.Err? {
          return;
        }
        k := k + 1;
      }
      FlushFromEnd(fieldWrite, flushed, k, |blob|, doneBytes, doneRows);
      r := Ok(());
    }

    /**
     * mergeOneField: a BYTE field fails with an AssertionError; otherwise the
     * merged vectors are drained into a dataset and written like a flushed field.
     */
    method MergeOneField(info: FieldInfo, merged: seq<(nat, V)>) returns (r: Result<(), Error>)
      requires Valid() && DocsIncreasing(merged)
      modifies this`blob, this`meta
      ensures Valid()
      ensures info.encoding == BYTE ==>
        r == Err(BytesNotSupported) && blob == old(blob) && meta == old(meta)
      ensures info.encoding == FLOAT32 ==>
        var w := FieldSpec(config, build, Values(merged), |old(blob)|);
        && blob == old(blob) + w.bytes
        && meta == old(meta) + FieldMeta(info, |merged|, w.placement)
        && r == Status(w.placement)
    {
      if info.encoding == BYTE {
        return Err(BytesNotSupported);
      }
      var dataset, _ := GetVectorData(merged);
      assert dataset == Values(merged);
      r := WriteFieldInternal(info, dataset);
    }

    /**
     * finish: a second call throws "already finished" and changes nothing; the
     * first one marks the writer finished, ends the rows with the -1 marker and
     * writes the footers of both streams.
     */
    method Finish() returns (r: Result<(), Error>)
      requires Valid()
      modifies this`finished, this`meta, this`blob
      ensures Valid()
      ensures old(finished) ==> r == Err(AlreadyFinished) && meta == old(meta) && blob == old(blob) && finished
      ensures !old(finished) ==>
        && r == Ok(()) && finished
        && meta == old(meta) + [Int32(END_OF_FIELDS), Footer]
        && blob == old(blob) + indexFooter
    {
      if finished {
        return Err(AlreadyFinished);
      }
      finished := true;
      meta := meta + [Int32(END_OF_FIELDS), Footer];
      blob := blob + indexFooter;
      r := Ok(());
    }
  }

  /** A field whose write fails ends the flush with its bytes and its exception. */
  lemma FlushFromStops<V>(write: FieldWriter<V>, fields: seq<FieldBuf<V>>,
                          k: nat, base: nat, w: FieldWrite)
    requires k < |fields|
    requires w == write(fields[k].vectors, base)
    requires w.placement.Err?
    ensures FlushFrom(write, fields, k, base) == FlushOutcome(w.bytes, [], Err(w.placement.error))
  {
  }

  /** A field whose write succeeds contributes its bytes and row; the flush goes on after them. */
  lemma FlushFromContinues<V>(write: FieldWriter<V>, fields: seq<FieldBuf<V>>,
                              k: nat, base: nat, w: FieldWrite)
    requires k < |fields|
    requires w == write(fields[k].vectors, base)
    requires w.placement.Ok?
    ensures FlushFrom(write, fields, k, base)
      == Prepend(w.bytes, [FieldRow(fields[k].info, |fields[k].vectors|, w.placement.value)],
                 FlushFrom(write, fields, k + 1, base + |w.bytes|))
  {
  }

  /** Past the last field a flush adds nothing and succeeds. */
  lemma FlushFromEnd<V>(write: FieldWriter<V>, fields: seq<FieldBuf<V>>,
                        k: nat, base: nat,
                        doneBytes: seq<byte>, doneRows: seq<Row>)
    requires k == |fields|
    ensures Prepend(doneBytes, doneRows, FlushFrom(write, fields, k, base))
      == FlushOutcome(doneBytes, doneRows, Ok(()))
  {
    PrependNothing(doneBytes, doneRows, [], Ok(()));
  }

  lemma AppendAssoc<T>(a: seq<T>, b: seq<T>, c: seq<T>)
    ensures (a + b) + c == a + (b + c)
  {
  }

  lemma PrependTwice(a: seq<byte>, x: seq<Row>, b: seq<byte>, y: seq<Row>, o: FlushOutcome)
    ensures Prepend(a, x, Prepend(b, y, o)) == Prepend(a + b, x + y, o)
  {
    assert a + (b + o.bytes) == (a + b) + o.bytes;
    assert x + (y + o.rows) == (x + y) + o.rows;
  }

  lemma PrependNothing(a: seq<byte>, x: seq<Row>, b: seq<byte>, status: Result<(), Error>)
    ensures Prepend(a, x, FlushOutcome(b, [], status)) == FlushOutcome(a + b, x, status)
  {
    assert x + [] == x;
  }

  /** Writing one more row appends its writes. */
  lemma {:induction false} RowsWritesAppend(rows: seq<Row>, row: Row)
    ensures RowsWrites(rows + [row]) == RowsWrites(rows) + RowWrites(row)
  {
    if rows == [] {
      assert [row][1..] == [];
    } else {
      assert (rows + [row])[1..] == rows[1..] + [row];
      RowsWritesAppend(rows[1..], row);
    }
  }
}
