/** The values that hash trees are made of: references, node payloads and stored chunks. */
module HashTypes {
  import opened Common

  datatype LeafType = FileChunk | TreeList | SnapshotList

  /** Where a chunk lives in external storage. `blobId` is local and is not serialised. */
  datatype ChunkRef = ChunkRef(blobId: Option<int>, blobName: Bytes, offset: nat, length: nat, key: Option<Bytes>)

  /** `node` is the height in the tree, 0 for a leaf. */
  datatype HashRef = HashRef(hash: Bytes, node: nat, leaf: LeafType, pref: ChunkRef, info: Option<Bytes>)
  {
    /** What survives a trip through the serialised form. */
    function ToModel(): HashRef {
      this.(pref := pref.(blobId := None))
    }
  }

  datatype Content = Data(href: HashRef) | Directory(dir: HashRef) | SymbolicLink(path: Bytes)

  datatype FileRecord = FileRecord(id: nat, name: Bytes, content: Content)

  /** The content of one leaf: raw file bytes, or a serialised batch of directory entries. */
  datatype Chunk = Raw(bytes: Bytes) | Files(files: seq<FileRecord>)

  const EMPTY_CHUNK := Raw([])

  /** What a node of a hash tree stores: a chunk, or the serialised references to its children. */
  datatype Payload = ChunkData(chunk: Chunk) | Refs(refs: seq<HashRef>)
}
