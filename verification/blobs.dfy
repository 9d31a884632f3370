/**
 The repository's value types: content identifiers, blob types, blob handles
 and the index's view of a pack (an identifier plus the blobs stored in it).
 */
module Blobs {

  /** Length in bytes of a content identifier (a SHA-256 digest). */
  const IdSize: nat := 32

  /** A content identifier; only its equality matters to this model. */
  type ID = s: seq<bv8> | |s| == IdSize witness seq(IdSize, _ => 0)

  /** The two kinds of blob a repository stores. */
  datatype BlobType = DataBlob | TreeBlob

  /** A blob is named by its identifier AND its type: the same identifier
      under two types names two different blobs. */
  datatype BlobHandle = BlobHandle(id: ID, typ: BlobType)

  function TreeHandle(id: ID): BlobHandle
  {
    BlobHandle(id, TreeBlob)
  }

  function DataHandle(id: ID): BlobHandle
  {
    BlobHandle(id, DataBlob)
  }

  /** One blob as the index records it inside a pack. Offset and length
      locate the blob in the pack file and play no part in liveness. */
  datatype Entry = Entry(id: ID, typ: BlobType, offset: nat, length: nat) {

    /** The handle the entry stands for: identifier and type together. */
    function Handle(): BlobHandle
    {
      BlobHandle(id, typ)
    }
  }

  /** A pack file as the in-memory index lists it. */
  datatype Pack = Pack(id: ID, entries: seq<Entry>)
}
