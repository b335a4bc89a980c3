/** Compressing a buffer and getting it back. */
module Deflate {
  import opened LzTokens
  import opened LzWindow
  import opened LzCompressor
  import opened BitStream
  import opened DeflateFormat
  import opened DeflateLayout
  import opened DeflateWriter
  import opened DeflateReader

  /** tdefl_compress_mem_to_heap, into a receiver that may refuse. The window and
      the hash chains may hold anything to begin with. */
  method CompressMemToHeap(src: seq<LzTokens.Byte>, options: Options, dict: array<LzTokens.Byte>, next: array<Short>, hash: array<Short>)
    returns (ok: bool, bytes: seq<LzTokens.Byte>, ghost items: seq<Item>)
    requires dict.Length == DICT_SIZE + MIRROR && next.Length == DICT_SIZE && hash.Length == HASH_SIZE
    requires options.probesShort > 0 && options.probesLong > 0
    modifies dict, next, hash
    ensures options.takesAll ==> ok
    ensures ok ==> AllFormed(items) && Closed(items) && ExpandAll([], Blocks(items)) == Some(src)
    ensures ok ==> BytesBits(bytes) == StreamBits(items, 0) + Padding(|StreamBits(items, 0)|)
    ensures ok ==> forall i :: 0 <= i < |items| ==> ItemAt(BytesBits(bytes), |StreamBits(items[..i], 0)|, items[i])
  {
    hide ExpandAll, StreamBits, Padding, AllSmall, BytesBits, ItemAt;
    var c := new Compressor(options, dict, next, hash);
    var result, consumed, drained, held := c.Compress(src, Finish, false);
    bytes, items := [], [];
    ok := result == Done;
    if ok {
      assert c.earlier + c.input == [] + src[..consumed] == src;
      bytes, items := SendBlocks(c.output);
      forall i | 0 <= i < |items|
        ensures ItemAt(BytesBits(bytes), |StreamBits(items[..i], 0)|, items[i])
      {
        StreamLaidOut(items, i, Padding(|StreamBits(items, 0)|));
      }
    }
  }

  /** The blocks one after the other, the last of them marked. */
  method SendBlocks(blocks: seq<Block>) returns (bytes: seq<LzTokens.Byte>, ghost items: seq<Item>)
    requires blocks != [] && AllSmall(blocks)
    ensures AllFormed(items) && Closed(items) && Blocks(items) == blocks
    ensures BytesBits(bytes) == StreamBits(items, 0) + Padding(|StreamBits(items, 0)|)
  {
    hide StreamBits, Padding, Formed, BytesBits;
    var sender := new Sender();
    var i := 0;
    while i < |blocks|
      invariant 0 <= i <= |blocks| && sender.Valid() && fresh(sender) && fresh(sender.w) && Blocks(sender.items) == blocks[..i]
      invariant forall k :: 0 <= k < i ==> (sender.items[k].final <==> k == |blocks| - 1)
    {
      var fixed: bool := *;
      sender.PutBlock(blocks[i], i == |blocks| - 1, fixed);
      i := i + 1;
    }
    items := sender.items;
    bytes := sender.Finish();
  }

  /** What is decompressed is what was compressed. */
  method CompressAndRestore(src: seq<LzTokens.Byte>, options: Options, dict: array<LzTokens.Byte>, next: array<Short>, hash: array<Short>)
    returns (compressed: bool, ok: bool, out: seq<LzTokens.Byte>)
    requires dict.Length == DICT_SIZE + MIRROR && next.Length == DICT_SIZE && hash.Length == HASH_SIZE
    requires options.probesShort > 0 && options.probesLong > 0
    modifies dict, next, hash
    ensures options.takesAll ==> compressed
    ensures compressed ==> ok && out == src
  {
    hide ExpandAll, StreamBits, Padding, BytesBits;
    var bytes;
    ghost var items;
    compressed, bytes, items := CompressMemToHeap(src, options, dict, next, hash);
    ok, out := false, [];
    if compressed {
      ok, out := ReadStream(bytes, items, Padding(|StreamBits(items, 0)|));
    }
  }
}
