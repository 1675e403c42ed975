/** The errors the numatopology package can produce or pass through. */
module Errors {

  datatype Error =
      /** `fmt.Errorf("distance not found")` from the fake distance source */
    | DistanceNotFound
      /** `fmt.Errorf("cannot convert %s to int", token)` from row parsing */
    | CannotConvert(token: string)
      /** any other error a distance source hands back, e.g. one seeded into the fake */
    | Injected(message: string)
}
