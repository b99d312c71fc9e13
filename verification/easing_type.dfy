/** The closed set of easing curve kinds a host may request when starting an easing.
    Only ten of them have an implementation; the library resolves the rest to Linear. */
module EasingTypes {

  datatype EasingType =
    | Linear
    | InQuad | OutQuad | InOutQuad
    | InCubic | OutCubic | InOutCubic
    | InQuart | OutQuart | InOutQuart
    | InQuint | OutQuint | InOutQuint
    | InSine | OutSine | InOutSine
    | InExpo | OutExpo | InOutExpo
    | InCirc | OutCirc | InOutCirc
    | InElastic | OutElastic | InOutElastic
    | InBack | OutBack | InOutBack
    | InBounce | OutBounce | InOutBounce

  /** The kinds for which the curve library has its own equation. */
  predicate Implemented(kind: EasingType) {
    || kind.Linear?
    || kind.InQuad? || kind.OutQuad? || kind.InOutQuad?
    || kind.InCubic? || kind.OutCubic? || kind.InOutCubic?
    || kind.InElastic? || kind.OutElastic? || kind.InOutElastic?
  }
}
