/** The `type` strings of the two messages exchanged between the page and the worker. */
module Messages {
  /** Page -> waiting worker: activate now (`{type: 'SKIP_WAITING'}`). */
  const SKIP_WAITING: string := "SKIP_WAITING"
  /** Activated worker -> every window client: reload (`{type: 'RELOAD'}`). */
  const RELOAD: string := "RELOAD"
}
