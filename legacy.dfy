/**
 * The original single-module uploader: a file is cut into 5 MiB chunks by
 * position arithmetic and the chunks are uploaded as parts 1, 2, 3, ... of
 * one multipart upload, with a progress line on standard error per chunk.
 *
 * The file is given by its contents; the standard error stream is the list
 * of strings written to it, and the store is the list of parts handed to
 * it, each with its number.
 */
module Legacy {

  import opened Wrappers
  import opened Bytes
  import opened Text
  import opened Common
  import Up
  import Arith

  /** 5 MiB. */
  const CHUNK_SIZE: nat := 5 * 1024 * 1024

  /** `'%-40s \r' % ('uploading chunk %d/%d' % (n, total))`. */
  function ChunkMessage(n: nat, total: nat): string {
    PadRight("uploading chunk " + NatToString(n) + "/" + NatToString(total), 40) + " \r"
  }

  /**
   * `generate_chunk_files(path)` for a file holding `data`: `size //
   * CHUNK_SIZE` full chunks followed by one chunk of the remaining `size %
   * CHUNK_SIZE` bytes, which is empty when the size is a multiple of the
   * chunk size. The chunks make up the file, and one progress line is
   * written per chunk.
   */
  method GenerateChunkFiles(data: seq<byte>) returns (pieces: seq<seq<byte>>, messages: seq<string>)
    ensures |pieces| == |data| / CHUNK_SIZE + 1
    ensures forall i :: 0 <= i < |pieces| - 1 ==> |pieces[i]| == CHUNK_SIZE
    ensures |pieces[|pieces| - 1]| == |data| % CHUNK_SIZE
    ensures Flatten(pieces) == data
    ensures messages == seq(|pieces|, ct requires 0 <= ct < |pieces| => ChunkMessage(ct + 1, |pieces|))
  {
    var size := |data|;
    var chunks := size / CHUNK_SIZE;
    var rem := size % CHUNK_SIZE;
    var pos: nat := 0;
    pieces, messages := [], [];
    for ct := 0 to chunks + 1
      invariant Chunked(data, ct, pos, pieces)
      invariant messages == seq(ct, i requires 0 <= i < ct => ChunkMessage(i + 1, chunks + 1))
    {
      var amount := CHUNK_SIZE;
      if ct == chunks {
        amount := rem;
      }
      ChunkStep(data, ct, pos, pieces);
      var chunk := Up.Read(data, pos, amount);
      MessagesSnoc(ct, chunks + 1);
      messages := messages + [ChunkMessage(ct + 1, chunks + 1)];
      pieces := pieces + [chunk];
      pos := pos + amount;
    }
    assert data[..pos] == data;
  }

  /**
   * What holds after `ct` chunks have been read: they are the first `pos`
   * bytes, all full but the remainder chunk, which comes last.
   */
  ghost predicate Chunked(data: seq<byte>, ct: nat, pos: nat, pieces: seq<seq<byte>>) {
    var chunks := |data| / CHUNK_SIZE;
    && pos == (if ct <= chunks then ct * CHUNK_SIZE else |data|) && pos <= |data|
    && |pieces| == ct && Flatten(pieces) == data[..pos]
    && (forall i :: 0 <= i < ct && i < chunks ==> |pieces[i]| == CHUNK_SIZE)
    && (ct == chunks + 1 ==> |pieces[chunks]| == |data| % CHUNK_SIZE)
  }

  /** Reading chunk `ct`, full or the remainder, keeps `Chunked`. */
  lemma ChunkStep(data: seq<byte>, ct: nat, pos: nat, pieces: seq<seq<byte>>)
    requires Chunked(data, ct, pos, pieces) && ct <= |data| / CHUNK_SIZE
    ensures var amount := if ct == |data| / CHUNK_SIZE then |data| % CHUNK_SIZE else CHUNK_SIZE;
      Chunked(data, ct + 1, pos + amount, pieces + [Up.Read(data, pos, amount)])
  {
    var amount := if ct == |data| / CHUNK_SIZE then |data| % CHUNK_SIZE else CHUNK_SIZE;
    ChunkBounds(|data|, ct);
    ReadChunk(data, pieces, pos, amount);
  }

  /** Reading `amount` more bytes extends the chunks read so far. */
  lemma ReadChunk(data: seq<byte>, pieces: seq<seq<byte>>, pos: nat, amount: nat)
    requires pos + amount <= |data| && Flatten(pieces) == data[..pos]
    ensures var chunk := Up.Read(data, pos, amount);
      |chunk| == amount && Flatten(pieces + [chunk]) == data[..pos + amount]
  {
    var chunk := Up.Read(data, pos, amount);
    assert data[..pos] + chunk == data[..pos + amount];
    FlattenAppend(pieces, chunk);
  }

  /** One more progress line. */
  lemma MessagesSnoc(ct: nat, total: nat)
    ensures seq(ct + 1, i requires 0 <= i < ct + 1 => ChunkMessage(i + 1, total))
         == seq(ct, i requires 0 <= i < ct => ChunkMessage(i + 1, total)) + [ChunkMessage(ct + 1, total)]
  {
  }

  /** Where chunk `ct` starts and ends: inside the file, the last one at its end. */
  lemma ChunkBounds(size: nat, ct: nat)
    requires ct <= size / CHUNK_SIZE
    ensures ct * CHUNK_SIZE + (if ct == size / CHUNK_SIZE then size % CHUNK_SIZE else CHUNK_SIZE) <= size
    ensures ct < size / CHUNK_SIZE ==> ct * CHUNK_SIZE + CHUNK_SIZE == (ct + 1) * CHUNK_SIZE
    ensures ct == size / CHUNK_SIZE ==> ct * CHUNK_SIZE + size % CHUNK_SIZE == size
  {
    var q := size / CHUNK_SIZE;
    assert size == q * CHUNK_SIZE + size % CHUNK_SIZE;
    Arith.MulSucc(ct + 1, CHUNK_SIZE);
    if ct < q {
      assert q * CHUNK_SIZE - (ct + 1) * CHUNK_SIZE == (q - ct - 1) * CHUNK_SIZE;
      Arith.MulSign(q - ct - 1, CHUNK_SIZE);
    }
  }

  /**
   * `upload_multipart(bucket, path)` for a file holding `data`: every chunk
   * is uploaded in generation order as the part numbered by its position,
   * from 1. Standard error receives the bucket and key, the progress lines
   * and `done`.
   */
  method UploadMultipart(bucket: string, path: string, data: seq<byte>)
    returns (uploaded: seq<(nat, seq<byte>)>, stderr: seq<string>)
    ensures |uploaded| == |data| / CHUNK_SIZE + 1
    ensures forall i :: 0 <= i < |uploaded| ==> uploaded[i].0 == i + 1
    ensures forall i :: 0 <= i < |uploaded| - 1 ==> |uploaded[i].1| == CHUNK_SIZE
    ensures Flatten(seq(|uploaded|, i requires 0 <= i < |uploaded| => uploaded[i].1)) == data
    ensures |stderr| == |uploaded| + 2
    ensures stderr[0] == "bucket=" + bucket + ", key=" + path + "\n" && stderr[|stderr| - 1] == "\ndone\n"
    ensures forall n :: 1 <= n <= |uploaded| ==> stderr[n] == ChunkMessage(n, |uploaded|)
  {
    var pieces, messages := GenerateChunkFiles(data);
    uploaded := [];
    for piece := 1 to |pieces| + 1
      invariant |uploaded| == piece - 1
      invariant forall i :: 0 <= i < piece - 1 ==> uploaded[i] == (i + 1, pieces[i])
    {
      uploaded := uploaded + [(piece, pieces[piece - 1])];
    }
    assert seq(|uploaded|, i requires 0 <= i < |uploaded| => uploaded[i].1) == pieces;
    stderr := ["bucket=" + bucket + ", key=" + path + "\n"] + messages + ["\ndone\n"];
  }

  /**
   * Against `count_parts` for the same part size, the chunker yields one
   * extra, empty, piece exactly when the size is a multiple of the chunk
   * size, an empty file included.
   */
  lemma ExtraEmptyChunk(size: nat)
    ensures CHUNK_SIZE == Up.DEFAULT_PART_SIZE
    ensures Up.CountParts(Some(size), CHUNK_SIZE).Known?
    ensures size / CHUNK_SIZE + 1
         == Up.CountParts(Some(size), CHUNK_SIZE).count + (if size % CHUNK_SIZE == 0 then 1 else 0)
  {
  }

  /** The line for the only chunk of a file smaller than a chunk. */
  lemma ChunkMessageExample()
    ensures ChunkMessage(1, 1) == "uploading chunk 1/1                      \r"
  {
    assert NatToString(1) == "1";
    assert "uploading chunk " + NatToString(1) + "/" + NatToString(1) == "uploading chunk 1/1";
  }
}
