/** The documents of the three backend collections, as lib/chat-service.ts
    declares them. Optional fields are `Option`s; for raw user documents,
    where the service only asks whether a field is truthy, "" stands for a
    missing, null or empty field. */
module Records {
  import opened Outcomes

  /** A users-collection document exactly as the backend delivers it. */
  datatype RawUser = RawUser(
    id: string,
    username: string,
    email: string,
    number: string,
    password: Option<string>,
    createdAt: string)

  /** A user after normalisation: display fields are never empty. */
  datatype User = User(
    id: string,
    username: string,
    email: string,
    number: string,
    password: Option<string>,
    createdAt: string)

  datatype Chat = Chat(
    id: string,
    user1: string,
    user2: string,
    createdAt: string,
    isGroup: Option<bool>,
    lastMessage: Option<string>,
    lastUpdated: string)

  datatype Message = Message(
    id: string,
    chatId: string,
    senderId: string,
    text: string,
    timestamp: string,
    status: string,
    kind: string,
    attachments: Option<string>)
}
