/** Small types several modules share. */
module Types {

  datatype Option<+T> = None | Some(value: T)

  /** tc_State */
  datatype TState = TS_RUN | TS_READY | TS_WAIT
}
