# CuVS vectors writer, modelled in Dafny

This project models `CuVSVectorsWriter`, the segment writer of the Lucene/cuVS vector
format. The writer buffers the vectors of every registered FLOAT32 field. On `flush`, or on
`mergeOneField`, it hands each field's dataset to the GPU index library. The library serializes
up to three sub-indexes per field (a CAGRA graph, a brute-force index, an HNSW graph) into one
shared, append-only index stream. The writer then writes one metadata row per field. The row
holds the field's number, encoding ordinal, similarity ordinal, dimension and vector count, then
the offset and length of each sub-index. `finish` closes the rows with the `-1` end marker and
writes the footers.

The model is organised as follows:

- `Lucene` holds the Lucene types the writer reads: `VectorEncoding`, `VectorSimilarityFunction`,
  the on-disk `SIMILARITY_FUNCTIONS` list and `FieldInfo`.
- `Failures` holds every exception the writer raises or lets through, their messages, and
  `handleThrowableWithIgnore`, with `String.contains` as a substring predicate.
- `Streams` is the index stream, a byte sequence whose length is the file pointer. It also
  holds the metadata stream as a sequence of typed writes, the row layout, and a reader of the
  rows used to state the layout's inverse.
- `IndexTypes` is the `IndexType` enum and its three capability flags.
- `Datasets` is the building of the dataset: the plain copy, the sorted copy through
  `new2OldOrd`, and draining merged values (`getVectorData`).
- `Policy` is the degradation policy of `writeFieldInternal` as a function `FieldSpec`. It takes
  the dataset and the file pointer and gives what the field appends and its placement or
  exception. The lemmas about it state the static substitution, the tolerated CAGRA failure, the
  HNSW threshold and the offset/length tiling.
- `VectorsWriter` has the `Writer` class. Its fields are the registered fields, the two
  streams and the `finished` flag. Its methods are proved against `FieldSpec` and against
  `FlushFrom`, the specification of a whole flush. The lemmas about `FlushFrom` cover
  registration order, blob length and back-to-back placement.

The native library is a parameter of the writer: a total function from (kind of index, build
parameters, dataset) to either the serialized bytes, or an exception with its message and the
bytes already written to the stream. Vectors are opaque values.

Two behaviours of the code are worth knowing, and the model keeps both. First, writeEmpty writes 0
for all six offset/length values of a field without vectors, not the current file pointer
(CuVSVectorsWriter.java:376). Second, a tolerated CAGRA failure records the bytes it left in the
stream as the CAGRA length, because the length is the file-pointer difference (:329). That length
can be non-zero even though no CAGRA index was completed.

## Model

| member | source | states |
|---|---|---|
| IndexTypes.FlagTable | src/main/java/org/apache/lucene/sandbox/vectorsearch/CuVSVectorsWriter.java:93-121 | The four constants have distinct flag triples and each requests at least one kind. HNSW is never combined with another kind. CAGRA_AND_BRUTE_FORCE requests exactly the union of CAGRA and BRUTE_FORCE. |
| Lucene.VectorEncoding.Ordinal | src/main/java/org/apache/lucene/sandbox/vectorsearch/CuVSVectorsWriter.java:390 | The encoding ordinal written in a row is 0 or 1, and it is 1 exactly for FLOAT32. |
| Lucene.SimilarityOrdinal | src/main/java/org/apache/lucene/sandbox/vectorsearch/CuVSVectorsWriter.java:391 | The ordinal of a similarity function is the position of its first occurrence in SIMILARITY_FUNCTIONS. |
| Failures.NatToString | src/main/java/org/apache/lucene/sandbox/vectorsearch/CuVSVectorsWriter.java:224 | The count in the size-guard message is a non-empty string of decimal digits without a leading zero. |
| Failures.NatToStringRoundTrip | src/main/java/org/apache/lucene/sandbox/vectorsearch/CuVSVectorsWriter.java:224 | Reading those digits back as a decimal number gives the count, so the text is the count's decimal form. |
| Failures.Contains | src/main/java/org/apache/lucene/sandbox/vectorsearch/CuVSVectorsWriter.java:421 | The reference for String.contains. ContainsIffOccurs proves that it holds exactly when the text occurs at some position. |
| Failures.ContainsIffOccurs | src/main/java/org/apache/lucene/sandbox/vectorsearch/CuVSVectorsWriter.java:421 | The substring test used for the message holds exactly when the text occurs at some position of the message. |
| Failures.HandleThrowableWithIgnore | src/main/java/org/apache/lucene/sandbox/vectorsearch/CuVSVectorsWriter.java:420-425 | A failure is swallowed exactly when its message exists and contains the tolerated text. Any other failure is rethrown unchanged. A failure without a message raises the null-message error instead. |
| Streams.RowWrites | src/main/java/org/apache/lucene/sandbox/vectorsearch/CuVSVectorsWriter.java:379-400 | A metadata row is exactly eleven writes. |
| Streams.ReadRowsInverse | src/main/java/org/apache/lucene/sandbox/vectorsearch/CuVSVectorsWriter.java:389-399 | Rows written one after another, then the -1 end marker and anything else, read back as exactly those rows. The five ints and six longs of each row come back in their fields. |
| Datasets.Reorder | src/main/java/org/apache/lucene/sandbox/vectorsearch/CuVSVectorsWriter.java:293-299 | The reference for the sorted dataset. ReorderVectors is proved to build it, and ReorderKeepsEveryVector proves that it keeps every buffered vector. |
| Datasets.CopyVectors | src/main/java/org/apache/lucene/sandbox/vectorsearch/CuVSVectorsWriter.java:280-282 | The unsorted dataset equals the buffered vectors, in ordinal order. |
| Datasets.ReorderVectors | src/main/java/org/apache/lucene/sandbox/vectorsearch/CuVSVectorsWriter.java:293-299 | The sorted dataset has as many vectors as were buffered. Position i holds oldVectors[new2OldOrd[i]]. |
| Datasets.PermutationIsOnto | src/main/java/org/apache/lucene/sandbox/vectorsearch/CuVSVectorsWriter.java:289-291 | A new-to-old permutation reaches every old ordinal. |
| Datasets.ReorderKeepsEveryVector | src/main/java/org/apache/lucene/sandbox/vectorsearch/CuVSVectorsWriter.java:289-299 | The sorted dataset keeps the size, reaches every buffered vector and places oldVectors[new2OldOrd[i]] at i. No vector is lost or doubled. |
| Datasets.GetVectorData | src/main/java/org/apache/lucene/sandbox/vectorsearch/CuVSVectorsWriter.java:428-441 | For the strictly increasing doc ids the iterator delivers, the dataset is the merged vectors in iteration order and the result is the vector count, which is also the number of documents seen. |
| Policy.GraphAttempt | src/main/java/org/apache/lucene/sandbox/vectorsearch/CuVSVectorsWriter.java:222-235 | The reference for writeCagraIndex, and for writeHNSWIndex at :251-264. It applies the size guard, the parameters and the native build. OnlyNativeFailuresEscape proves that neither guard fires from writeFieldInternal. |
| Policy.BruteForceAttempt | src/main/java/org/apache/lucene/sandbox/vectorsearch/CuVSVectorsWriter.java:237-249 | The reference for writeBruteForceIndex: a native build with 32 writer threads. SingleVectorGetsBruteForce and RecoverableCagraFailureFallsBack show its bytes or its exception in the field's outcome. |
| Policy.CagraPhase | src/main/java/org/apache/lucene/sandbox/vectorsearch/CuVSVectorsWriter.java:319-330 | The reference for the CAGRA step. CagraStep is proved to append its bytes and to keep or switch the type as it says. RecoverableCagraFailureFallsBack and OtherCagraFailureAborts state its two failure paths. |
| Policy.BruteForcePhase | src/main/java/org/apache/lucene/sandbox/vectorsearch/CuVSVectorsWriter.java:332-337 | The reference for the brute-force step. BruteForceStep is proved to follow it, and every failure escapes. |
| Policy.HnswPhase | src/main/java/org/apache/lucene/sandbox/vectorsearch/CuVSVectorsWriter.java:339-350 | The reference for the HNSW step, attempted only above MIN_CAGRA_INDEX_SIZE vectors. HnswStep is proved to follow it. SmallHnswFieldIsUnindexed and RecoverableHnswFailureIsDropped state the threshold and the dropped failure. |
| Policy.FieldSpec | src/main/java/org/apache/lucene/sandbox/vectorsearch/CuVSVectorsWriter.java:303-373 | The reference for writeFieldInternal. WriteIndexes and WriteFieldInternal are proved to follow it. The Policy lemmas state its empty-field, tiling, substitution, fallback, threshold and escape properties. |
| Policy.EffectiveType | src/main/java/org/apache/lucene/sandbox/vectorsearch/CuVSVectorsWriter.java:312-316 | The type changes exactly when CAGRA is requested over fewer than MIN_CAGRA_INDEX_SIZE vectors, and then it becomes BRUTE_FORCE. The effective type never asks for CAGRA below that size. |
| Policy.EmptyFieldIsZeroRow | src/main/java/org/apache/lucene/sandbox/vectorsearch/CuVSVectorsWriter.java:303-306 | A field without vectors appends nothing and gets the all-zero placement. |
| Policy.PlacementTilesBlob | src/main/java/org/apache/lucene/sandbox/vectorsearch/CuVSVectorsWriter.java:308-350 | For a non-empty field the CAGRA offset is the old file pointer. The brute-force offset is CAGRA offset plus length, and the HNSW offset is brute-force offset plus length. The blob grows by the sum of the three lengths. |
| Policy.SingleVectorGetsBruteForce | src/main/java/org/apache/lucene/sandbox/vectorsearch/CuVSVectorsWriter.java:312-337 | CAGRA requested over one vector builds no CAGRA graph, only a brute-force index at the file pointer. A brute-force failure escapes with its partial bytes. |
| Policy.RecoverableCagraFailureFallsBack | src/main/java/org/apache/lucene/sandbox/vectorsearch/CuVSVectorsWriter.java:320-337 | A CAGRA failure whose message contains the tolerated text is swallowed. Its partial bytes are the CAGRA length. A brute-force index follows even when only CAGRA was requested, and HNSW is left empty. |
| Policy.OtherCagraFailureAborts | src/main/java/org/apache/lucene/sandbox/vectorsearch/CuVSVectorsWriter.java:320-328 | Any other CAGRA failure escapes with no placement. Only the failed call's partial bytes stay in the blob. A failure without a message escapes as the null-message error. |
| Policy.OnlyNativeFailuresEscape | src/main/java/org/apache/lucene/sandbox/vectorsearch/CuVSVectorsWriter.java:222-226 | The size guards of writeCagraIndex, cagraIndexParams and writeHNSWIndex never fire from writeFieldInternal. Every escaping exception comes from the native library or from a null message. |
| Policy.LengthsFollowRequest | src/main/java/org/apache/lucene/sandbox/vectorsearch/CuVSVectorsWriter.java:312-350 | A non-zero CAGRA length needs CAGRA requested and at least two vectors. A non-zero brute-force length needs brute force or CAGRA requested. A non-zero HNSW length needs HNSW requested and more than two vectors. |
| Policy.SmallHnswFieldIsUnindexed | src/main/java/org/apache/lucene/sandbox/vectorsearch/CuVSVectorsWriter.java:339-350 | HNSW requested over one or two vectors builds nothing. The row records three zero lengths at the file pointer. |
| Policy.RecoverableHnswFailureIsDropped | src/main/java/org/apache/lucene/sandbox/vectorsearch/CuVSVectorsWriter.java:339-350 | A tolerated HNSW failure is swallowed with no fallback. Its partial bytes are the HNSW length. |
| VectorsWriter.ToJavaByte | src/main/java/org/apache/lucene/sandbox/vectorsearch/CuVSVectorsWriter.java:405 | The (byte) cast gives a value in [-128, 128) congruent to its input modulo 256, and leaves 0..127 unchanged. |
| VectorsWriter.DistFuncToOrd | src/main/java/org/apache/lucene/sandbox/vectorsearch/CuVSVectorsWriter.java:402-409 | It fails exactly when the function is not listed, and then with the invalid-distance-function error. Otherwise it returns the byte-cast index of the first occurrence. |
| VectorsWriter.SimilarityToOrd | src/main/java/org/apache/lucene/sandbox/vectorsearch/CuVSVectorsWriter.java:391 | Over SIMILARITY_FUNCTIONS, distFuncToOrd never throws and returns the function's position in that list. |
| VectorsWriter.FlushedFields | src/main/java/org/apache/lucene/sandbox/vectorsearch/CuVSVectorsWriter.java:269-275 | The datasets a flush writes keep the number of fields, their order, their infos and their vector counts, sorted or not. |
| VectorsWriter.FlushFrom | src/main/java/org/apache/lucene/sandbox/vectorsearch/CuVSVectorsWriter.java:267-276 | The reference for flush: fields in registration order, stopping at the first escaping exception. Writer.Flush is proved to follow it. FlushRowsFollowFields, FlushBlobLength and FlushRowPlacements state its order, length and layout. |
| VectorsWriter.FlushRowsFollowFields | src/main/java/org/apache/lucene/sandbox/vectorsearch/CuVSVectorsWriter.java:267-276 | Row i of a flush belongs to field i in registration order, with that field's number, encoding, similarity, dimension and count. The flush succeeds exactly when every field got its row. |
| VectorsWriter.FieldSpecPlacesAtPointer | src/main/java/org/apache/lucene/sandbox/vectorsearch/CuVSVectorsWriter.java:303-350 | Each successful field either is empty, with nothing appended and the zero placement, or starts at the file pointer with tiled sub-indexes covering exactly what it appended. |
| VectorsWriter.FlushBlobLength | src/main/java/org/apache/lucene/sandbox/vectorsearch/CuVSVectorsWriter.java:267-276 | A flush appends at least the bytes its rows' sub-indexes cover, and exactly those when it succeeds. A failed field leaves its partial bytes behind. |
| VectorsWriter.LaidOutOffsets | src/main/java/org/apache/lucene/sandbox/vectorsearch/CuVSVectorsWriter.java:319-339 | In rows laid out back to back, each row with vectors starts at the base plus the lengths of all rows before it, with tiled sub-indexes. Each empty row has the zero placement. |
| VectorsWriter.FlushRowPlacements | src/main/java/org/apache/lucene/sandbox/vectorsearch/CuVSVectorsWriter.java:267-276 | The rows of a flush are laid out back to back from the file pointer where it began. Each field starts where the previous one ended. |
| VectorsWriter.ThreeFieldFlush | src/main/java/org/apache/lucene/sandbox/vectorsearch/CuVSVectorsWriter.java:267-337 | With CAGRA_AND_BRUTE_FORCE and a library that always serializes something, a flush of fields with 0, 1 and 5 vectors succeeds with three rows. The first row is all-zero, the second has only brute force, and the third has CAGRA and brute force. |
| VectorsWriter.Writer.constructor | src/main/java/org/apache/lucene/sandbox/vectorsearch/CuVSVectorsWriter.java:123-169 | Both streams start with their header, no field is registered and the writer is not finished. |
| VectorsWriter.Writer.AddField | src/main/java/org/apache/lucene/sandbox/vectorsearch/CuVSVectorsWriter.java:172-183 | A non-FLOAT32 field is refused with the expected-float32 error and the fields stay unchanged. Otherwise exactly one empty buffer is appended after the earlier ones. |
| VectorsWriter.Writer.AddValue | src/main/java/org/apache/lucene/sandbox/vectorsearch/CuVSVectorsWriter.java:180-181 | A vector added through a field's sink is appended to that field's buffer only. |
| VectorsWriter.Writer.WriteMeta | src/main/java/org/apache/lucene/sandbox/vectorsearch/CuVSVectorsWriter.java:379-400 | The row's eleven writes are appended in order: number, encoding ordinal, similarity ordinal, dimension, count, then the six offsets and lengths. |
| VectorsWriter.Writer.WriteEmpty | src/main/java/org/apache/lucene/sandbox/vectorsearch/CuVSVectorsWriter.java:375-377 | The row of an empty field has count 0 and six zero values. |
| VectorsWriter.Writer.CagraStep | src/main/java/org/apache/lucene/sandbox/vectorsearch/CuVSVectorsWriter.java:319-330 | The blob grows by what writeCagraIndex wrote, complete or partial. A tolerated failure switches the type to BRUTE_FORCE, and any other failure escapes. |
| VectorsWriter.Writer.BruteForceStep | src/main/java/org/apache/lucene/sandbox/vectorsearch/CuVSVectorsWriter.java:332-337 | The blob grows by what writeBruteForceIndex wrote. Every failure escapes. |
| VectorsWriter.Writer.HnswStep | src/main/java/org/apache/lucene/sandbox/vectorsearch/CuVSVectorsWriter.java:339-348 | The blob grows by what writeHNSWIndex wrote. A tolerated failure is swallowed. |
| VectorsWriter.Writer.WriteIndexes | src/main/java/org/apache/lucene/sandbox/vectorsearch/CuVSVectorsWriter.java:308-350 | The offset/length bookkeeping over the mutating file pointer and index type gives the blob and placement of FieldSpec. |
| VectorsWriter.Writer.WriteFieldInternal | src/main/java/org/apache/lucene/sandbox/vectorsearch/CuVSVectorsWriter.java:303-373 | The blob grows as FieldSpec says. The field's row follows exactly when no exception escaped, and the result is that exception. |
| VectorsWriter.Writer.WriteField | src/main/java/org/apache/lucene/sandbox/vectorsearch/CuVSVectorsWriter.java:278-284 | An unsorted field is written from its buffered vectors in order. |
| VectorsWriter.Writer.WriteSortingField | src/main/java/org/apache/lucene/sandbox/vectorsearch/CuVSVectorsWriter.java:286-301 | A sorted field is written from its vectors reordered by new2OldOrd, and its row keeps the buffered count. |
| VectorsWriter.Writer.FlushField | src/main/java/org/apache/lucene/sandbox/vectorsearch/CuVSVectorsWriter.java:269-275 | One loop iteration writes field k, sorted or not, as the field writer specifies at the current file pointer. |
| VectorsWriter.Writer.FlushStep | src/main/java/org/apache/lucene/sandbox/vectorsearch/CuVSVectorsWriter.java:269-275 | After field k the whole flush is what has been written so far followed by the flush of the later fields. If field k failed, it is exactly what has been written. |
| VectorsWriter.Writer.Flush | src/main/java/org/apache/lucene/sandbox/vectorsearch/CuVSVectorsWriter.java:267-276 | The blob, the metadata rows and the outcome are those of FlushFrom over all fields in registration order, stopping at the first escaping exception. |
| VectorsWriter.Writer.MergeOneField | src/main/java/org/apache/lucene/sandbox/vectorsearch/CuVSVectorsWriter.java:443-461 | A BYTE field fails with "bytes not supported" and writes nothing. A FLOAT32 field is written from the merged vectors like a flushed field. |
| VectorsWriter.Writer.Finish | src/main/java/org/apache/lucene/sandbox/vectorsearch/CuVSVectorsWriter.java:463-479 | A second call fails with "already finished" and changes nothing. The first call marks the writer finished. It appends the -1 end marker and the footer after all rows, and appends the index footer to the index stream. |

## Left out

- The native index library (CagraIndex, BruteForceIndex, serialize, serializeToHNSW,
  destroyIndex, temporary files) is an arbitrary function supplied to the writer. The model
  does not say what the serialized bytes are.
- CodecUtil's header and footer bytes are opaque. The index stream's header and footer are
  byte sequences given to the constructor, and only their lengths matter to the model: the real
  footer ends with a checksum of the whole stream, which is not modelled. The metadata stream's
  header and footer are markers.
- writeVLong's byte encoding is not modelled, and neither are Java's int and long widths. Counts,
  offsets and lengths are unbounded naturals.
- The flatVectorsWriter delegation in addField, flush, mergeOneField and finish is left out, and
  so are close and ramBytesUsed. These only forward to other writers or estimate memory.
- The info stream, indexMsg, nanosToMillis and timing are left out. They are logging and
  wall-clock only.
- mapOldOrdToNewOrd is inherited and not part of this model. Each field's new-to-old ordinal
  permutation is an input to Flush.
- MergedVectorValues is not part of this model. The merged (doc, vector) pairs are an input to
  MergeOneField.
- handleThrowable (CuVSVectorsReader) is not part of this model. It is taken to rethrow the
  exception unchanged.
- CuVSFieldWriter is not part of this model. Writer.AddValue stands in for its per-document
  buffering.
- The size declared to Dataset.create is not modelled. A dataset is the sequence of vectors
  added to it.
- The native library is a function, so in the model it is deterministic: two builds of the same
  kind with the same parameters over the same dataset always have the same outcome. This covers
  two fields with equal vectors, or a field flushed and later merged. A real cuVS build may fail
  on one call and succeed on another. No property proved here relates two builds.
- The CuVSCodec registration glue is left out.
