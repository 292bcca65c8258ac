/** Option and Result values for the places where the decoders either find
    nothing or stop on a document they cannot handle. */
module Results {

  datatype Option<T> = None | Some(value: T) {
    function GetOr(default: T): T {
      match this
      case Some(v) => v
      case None => default
    }
  }

  /** Why a decode stopped. Each case stands for a null dereference in the
      decoder (a missing attribute, a missing bone, an empty frame list) or a
      division the model leaves undefined. */
  datatype DecodeError =
    | MissingAttribute(element: string, attribute: string)
    | MissingBoneData(boneName: string)
    | EmptyFrameList(boneName: string)
    | UndefinedPivot(textureName: string)

  datatype Result<T> = Ok(value: T) | Err(error: DecodeError)
}
