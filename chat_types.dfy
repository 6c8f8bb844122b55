/** The chat message record exchanged over the sockets and stored in discussions
    (src/websockets/types.ts). */
module ChatTypes {

  /** The kinds of chat payload. */
  datatype MsgType = Msg | Cell | FlowChart

  /** A chat message. The content is already sanitised and the time stamp is the
      sender's clock reading in milliseconds; both are opaque to the model. */
  datatype ChatMessage = ChatMessage(msgType: MsgType, content: string, sender: string, timeStamp: int)
}
