/** Sizes of the tpr driver. */
module TprTypes {
  const CHANNELS: nat := 14            // MOD_SHARED
  const BSA_BIT: nat := CHANNELS + 1   // the wmask bit of the BSA clients
}
