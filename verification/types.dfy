/** The message record shared by the orchestrator and the chat components. */
module Types {

  /** Who wrote a transcript entry: the person at the keyboard or the language model. */
  datatype Role = User | Model

  /** One transcript entry. */
  datatype Message = Message(role: Role, text: string)
}
