/** Result and error types shared by every service of the photo-sharing application. */
module Common {

  datatype Option<+T> = None | Some(value: T)

  /** The HTTP errors the handlers raise; each carries the status code of the exception class that raises it. */
  datatype ApiError =
    | RequestValidation      // FastAPI rejects a path, query or body parameter before the handler runs
    | InvalidReaction        // reaction kind outside the allowed set
    | PhotoNotFound
    | ReactionNotFound
    | ReactionAlreadyExists
    | InvalidImage
    | ImageTooLarge
    | PhotographerNotFound
    | PhotographerAlreadyExists
    | DisplayNameMismatch    // path and body display_name differ on a photographer update
  {
    function Status(): (code: int)
      ensures 400 <= code < 500
      ensures code == 404 <==> (PhotoNotFound? || ReactionNotFound? || PhotographerNotFound?)
      ensures code == 409 <==> (ReactionAlreadyExists? || PhotographerAlreadyExists?)
    {
      match this
      case RequestValidation => 422
      case InvalidReaction => 400
      case PhotoNotFound => 404
      case ReactionNotFound => 404
      case ReactionAlreadyExists => 409
      case InvalidImage => 400
      case ImageTooLarge => 413
      case PhotographerNotFound => 404
      case PhotographerAlreadyExists => 409
      case DisplayNameMismatch => 422
    }
  }

  datatype Result<+T> = Ok(value: T) | Err(error: ApiError)
}
