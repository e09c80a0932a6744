/** The optional value used wherever the agent uses std::optional. */
module Options {
  datatype Option<+T> = None | Some(value: T)
}
