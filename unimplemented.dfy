/** The placeholder strategy every dispatcher falls back to. */
module Unimplemented {
  import opened Support

  /** Scan::process of the unimplemented strategy: it refuses every call and
      writes nothing (it may not modify v_out). */
  method Process(identity: int, vIn: seq<int>, vOut: array<int>) returns (r: Status)
    ensures r.Err? && r.error == ErrorKind.Unimplemented
  {
    r := Err(ErrorKind.Unimplemented);
  }
}
