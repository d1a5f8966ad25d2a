/** How an operation of the time-period classes ends: with a value, or with
    one of the two exceptions the classes raise. */
module Outcomes {

  /** The exceptions raised: ValueError by __post_init__ on a bad pair of
      endpoints, NotImplementedError by the intersections not written yet */
  datatype Error = ValueError | NotImplementedError

  datatype Result<+T> = Ok(value: T) | Err(error: Error)

  /** Python's `X | None` */
  datatype Option<+T> = None | Some(value: T)
}
