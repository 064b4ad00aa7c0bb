/** The session of a server, as far as its connection goes. */
module Sessions {
  class SircSession {
    var attempts: nat
    var cancelled: bool
    var stream: bool
    var closing: bool

    constructor ()
      ensures attempts == 0 && !cancelled && !stream && !closing
    {
      attempts, cancelled, stream, closing := 0, false, false, false;
    }
  }
}
