/**
 The state of a peripheral as its channel sees it: it is told to become active or
 inactive; it becomes inactive at the next write, and active at once, unless it is
 an ADC, which has to be started first.
 */
module FtState {
  datatype State = Inactive | Inactivating | Activating | Active
}
