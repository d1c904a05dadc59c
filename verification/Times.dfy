/** Time stamps and the option type shared by the whole model. */
module Times {

  datatype Option<+T> = None | Some(value: T)

  /** A `boost::posix_time::ptime`: whole seconds since 1970-01-01T00:00:00, or one of
      the three special values. */
  datatype PTime = NotADateTime | NegInfinity | PosInfinity | At(seconds: int) {
    predicate IsSpecial() {
      !At?
    }

    /** The order in which a `std::map` keyed on time stamps lists its keys. The value
        not-a-date-time never becomes a key; it is placed last to keep the order total. */
    predicate Before(other: PTime) {
      match this
      case NegInfinity => other != NegInfinity
      case At(s) => (other.At? && s < other.seconds) || other.PosInfinity? || other.NotADateTime?
      case PosInfinity => other.NotADateTime?
      case NotADateTime => false
    }
  }

  const HOUR := 3600
  const DAY := 86400

  /** Fields that do not vary in time are stored under this time stamp. */
  const CONST_FIELD_TIME := At(0)
}
