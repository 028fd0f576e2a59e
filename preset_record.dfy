/** The preset record shared by the popup (which stores it) and the page script (which applies it). */
module PresetRecord {
  import opened Wrappers

  /**
   * A named bundle of playback settings. The identifier is an opaque token supplied from
   * outside (crypto.randomUUID in the popup); quality, view mode, captions and sleep timer
   * are kept as the strings the dialog's select elements produce ("max" / "auto" / "1080",
   * "default" / "theater" / "fullscreen" / "pip", "on" / "off", "off" / "end" / minutes).
   * A field missing from an old record is the empty string. Speed is the parsed number,
   * None standing for NaN (what parseFloat gives for text that is not a number).
   */
  datatype Preset = Preset(
    id: string,
    name: string,
    speed: Option<real>,
    quality: string,
    viewMode: string,
    captions: string,
    sleepTimer: string)
}
