/** Constants and types that several parts share. */
module Basics {

  datatype Option<T> = None | Some(value: T)

  const TWO_32: nat := 0x1_0000_0000
  const MAX_BATCH: nat := 255         // VersionBuffer::kMaxBatch
  const MAX_PIECES: int := 12800000   // EpochClient::kMaxPiecesPerPhase
}
