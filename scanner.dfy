/** The scan controller: the `isScanning` flag that guards starting and
    stopping the camera decoder, the calls the controller makes into the
    decoder, and the result panel it fills in. */
module Scanner {
  import Validation

  /** A call into the external decoder: `Quagga.init`, `Quagga.start`,
      `Quagga.stop`. */
  datatype DecoderCall = Init | Begin | Halt

  /** What the result panel shows. */
  datatype Panel =
    | Cleared
    | Scanned(genuine: bool, code: string, length: nat)
    | Failed(message: string)

  const CameraError: string := "Failed to initialize camera. Please check permissions."

  class Controller {
    var isScanning: bool
    var panel: Panel
    /** Every call made into the decoder, oldest first. */
    var calls: seq<DecoderCall>

    /** The flag is set exactly when the last call made into the decoder
        started it: while scanning the camera is running, and once the flag is
        cleared the decoder is not left started. */
    ghost predicate Valid()
      reads this
    {
      isScanning <==> |calls| > 0 && calls[|calls| - 1] == Begin
    }

    constructor ()
      ensures Valid()
      ensures !isScanning && panel == Cleared && calls == []
    {
      isScanning := false;
      panel := Cleared;
      calls := [];
    }

    /** The start button: does nothing while scanning; otherwise clears the
        panel and asks the decoder to initialise. The flag is set only once
        the decoder reports success (InitSucceeded). */
    method Start()
      requires Valid()
      modifies this
      ensures Valid()
      ensures old(isScanning) ==> unchanged(this)
      ensures !old(isScanning) ==>
        !isScanning && panel == Cleared && calls == old(calls) + [Init]
    {
      if isScanning {
        return;
      }
      panel := Cleared;
      calls := calls + [Init];
    }

    /** The decoder's initialisation callback without an error: set the flag
        and start decoding. */
    method InitSucceeded()
      requires Valid()
      modifies this
      ensures Valid()
      ensures isScanning && panel == old(panel) && calls == old(calls) + [Begin]
    {
      isScanning := true;
      calls := calls + [Begin];
    }

    /** The decoder's initialisation callback with an error: show the camera
        error and leave the flag as it was. */
    method InitFailed()
      requires Valid()
      modifies this
      ensures Valid()
      ensures isScanning == old(isScanning) && calls == old(calls)
      ensures panel == Failed(CameraError)
    {
      panel := Failed(CameraError);
    }

    /** The stop button: does nothing unless scanning; otherwise releases the
        camera and clears the flag. */
    method Stop()
      requires Valid()
      modifies this
      ensures Valid()
      ensures !old(isScanning) ==> unchanged(this)
      ensures old(isScanning) ==> panel == old(panel) && calls == old(calls) + [Halt]
      ensures !isScanning
    {
      if !isScanning {
        return;
      }
      calls := calls + [Halt];
      isScanning := false;
    }

    /** The detection handler: show the verdict on the decoded code with its
        length, then stop. */
    method Detected(code: string)
      requires Valid()
      modifies this
      ensures Valid()
      ensures panel == Scanned(Validation.ValidateBarcode(code), code, |code|)
      ensures !isScanning
      ensures calls == old(calls) + (if old(isScanning) then [Halt] else [])
    {
      panel := Scanned(Validation.ValidateBarcode(code), code, |code|);
      Stop();
    }
  }

  /** Pressing stop twice, then start, then (once the camera is up) start
      again and stop: the second stop makes no decoder call and the second
      start requests no second camera, so the decoder sees at most one stop
      for the two stops, then exactly one initialisation, one start and one
      stop. */
  method RepeatedButtons(c: Controller)
    requires c.Valid()
    modifies c
    ensures c.Valid() && !c.isScanning
    ensures c.calls == old(c.calls) + (if old(c.isScanning) then [Halt] else []) + [Init, Begin, Halt]
  {
    c.Stop();
    c.Stop();
    c.Start();
    c.InitSucceeded();
    c.Start();
    c.Stop();
  }

  /** The page's visibility handler. `registered` is the instance published
      as the page-wide app, `null` when there is none: when the page is
      hidden and that instance is scanning, it is stopped. */
  method VisibilityChanged(registered: Controller?, hidden: bool)
    requires registered != null ==> registered.Valid()
    modifies registered
    ensures registered != null ==> registered.Valid()
    ensures registered != null && hidden ==>
      && !registered.isScanning && registered.panel == old(registered.panel)
      && registered.calls == old(registered.calls) + (if old(registered.isScanning) then [Halt] else [])
    ensures registered != null && !hidden ==> unchanged(registered)
  {
    if hidden && registered != null && registered.isScanning {
      registered.Stop();
    }
  }

  /** As the page is wired, the handler looks up a page-wide instance that is
      never published (the controller is created and dropped, and only the
      class is exported), so hiding the page leaves a running camera running. */
  method PageHiddenAsWired(app: Controller)
    requires app.Valid() && app.isScanning
    modifies app
    ensures app.isScanning && unchanged(app)
  {
    VisibilityChanged(null, true);
  }

  /** With the controller published, hiding the page releases the camera. */
  method PageHidden(app: Controller)
    requires app.Valid() && app.isScanning
    modifies app
    ensures app.Valid() && !app.isScanning
    ensures app.calls == old(app.calls) + [Halt]
  {
    VisibilityChanged(app, true);
  }
}
