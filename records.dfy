/** The entries the hub keeps in its short-term histories and the group-voice
    membership record. Media payloads (file data, voice clips, videos) are
    opaque strings relayed verbatim. */
module Records {
  import opened JsValues

  /** What a chat entry carries: a text message, a file or a voice clip. */
  datatype ChatBody =
    | Text(text: Option<string>)
    | Attachment(filename: string, fileData: string)
    | VoiceClip(voiceData: string)

  /** A message, file or voice entry of the message history. `recipientId` is
      a user id or "all". */
  datatype ChatEntry = ChatEntry(
    id: string, userId: string, username: string, body: ChatBody, recipientId: string, timestamp: nat)

  /** The id prefix of each kind of chat entry. */
  function ChatIdPrefix(body: ChatBody): (r: string)
    ensures |r| >= 4 && r[|r| - 1] == '_'
  {
    match body
    case Text(_) => "msg_"
    case Attachment(_, _) => "file_"
    case VoiceClip(_) => "voice_"
  }

  /** A status or reel post: owner, owner's display name and picture at
      posting time, a kind-specific body and the clock reading at posting. */
  datatype Post<B> = Post(
    id: string, userId: string, username: string, profilePic: Option<string>, body: B, timestamp: nat)

  /** The body of a reel: trimmed caption, file name and video payload. */
  datatype ReelMedia = ReelMedia(caption: string, filename: string, videoData: string)

  /** A status post; its body is the trimmed status text. */
  type Status = Post<string>

  type Reel = Post<ReelMedia>

  /** A member of the group voice room. */
  datatype VoiceMember = VoiceMember(id: string, username: string)
}
