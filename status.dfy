/** The gRPC status codes and errors the handlers and interceptors return. */
module Status {

  datatype Code = Unauthenticated | NotFound | PermissionDenied | ResourceExhausted | Internal

  /** `status.Errorf(code, msg)` */
  datatype StatusError = StatusError(code: Code, msg: string)
}
