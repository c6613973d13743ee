/** The status codes the plugin returns to the VLC core. */
module Vlc {
  /** VLC_SUCCESS, VLC_EGENERIC and VLC_ENOMEM. */
  datatype Status = Success | GenericError | NoMemory
}
