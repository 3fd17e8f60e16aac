/** Types shared by the whole model. */
module Common {
  datatype Option<+T> = None | Some(value: T)

  /** How a Go call ends: with a value, with an error, or with a run-time panic. */
  datatype Outcome<+T> = Ok(value: T) | Err | Panic

  /** Whether a call fails: anything goes, but in a quiet world nothing does. */
  method MayFail(quiet: bool) returns (failed: bool)
    ensures quiet ==> !failed
  {
    failed := *;
    if quiet {
      failed := false;
    }
  }

  /** How a write call ends: it takes effect, it does not, or it does but reports an error. */
  datatype Fate = Works | Fails | Lost

  method SomeFate(quiet: bool) returns (f: Fate)
    ensures quiet ==> f == Works
  {
    f := *;
    if quiet {
      f := Works;
    }
  }
}
