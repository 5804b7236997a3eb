/** Records the store persists and returns. */
module Types {
  import opened Wrappers

  type ThreadId = string
  type MessageId = string

  /** One transcript row. `extraMetadata` is the JSON value as text. */
  datatype Message = Message(
    id: MessageId,
    content: string,
    messageType: string,
    extraMetadata: string,
    sender: string,
    createdAt: string)

  /** What one search result carries; its score is `matched / total`. */
  datatype Hit = Hit(
    threadId: ThreadId,
    messageId: MessageId,
    role: string,
    content: string,
    createdAt: string,
    matched: int,
    total: nat)

  /** Ids minted deterministically, the only ones two writers may present twice. */
  predicate IsDeterministicId(id: MessageId) {
    "agent:" <= id
  }
}
