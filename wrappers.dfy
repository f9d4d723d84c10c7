/** Failure-compatible result types shared by every module of the model. */
module Wrappers {

  /** The error carried by a failed operation: a Vulkan result code, a message
      string (the renderer's `Box<Error>` built from a `&str`), or one of the
      renderer's own prerequisite errors; `NoneValue` is `?` applied to an empty `Option`. */
  datatype Error =
    | VkError(code: int)
    | Message(text: string)
    | Renderer(kind: RendererError)
    | NoneValue

  /** `RendererError`: a builder field that an operation needs is still `None`. */
  datatype RendererError = NoDevice | NoRenderPass | NoSurfaceResolution

  datatype Option<+T> = None | Some(value: T) {
    function GetOr(default: T): T {
      match this
      case Some(v) => v
      case None => default
    }
  }

  /** `Result<T, Box<Error>>`, usable with `:-`. */
  datatype Result<+T> = Ok(value: T) | Err(error: Error) {
    predicate IsFailure() { Err? }

    function PropagateFailure<U>(): Result<U>
      requires Err?
    {
      Err(error)
    }

    function Extract(): T
      requires Ok?
    {
      value
    }
  }

  /** `Result<(), Box<Error>>`. */
  datatype Outcome = Pass | Fail(error: Error)
}
