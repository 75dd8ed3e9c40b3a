/** Types shared by the whole model: optional values, results, and the error
    type that every fallible operation of the library reports. */
module Common {

  datatype Option<+T> = None | Some(value: T)

  datatype Result<+T, +E> = Ok(value: T) | Err(error: E)

  /** The subset of the library's error enumeration that the modelled code
      produces. Names are the Julia symbol names as strings. */
  datatype JlrsError =
    | GlobalNotFound(name: string, moduleName: string)
    | NotAModule(name: string)
    | NotAFunction(name: string, ty: string)
    | FunctionNotFound(name: string)
    | ConstAlreadyExists(name: string)
      /** An error reported by user code or by the engine, carried as a value. */
    | Exception(code: nat)

  type JlrsResult<+T> = Result<T, JlrsError>
}
