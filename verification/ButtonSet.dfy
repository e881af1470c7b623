/** Which of three buttons are down. */
module ButtonSet {

  datatype Buttons = Buttons(left: bool, right: bool, middle: bool) {
    predicate Meets(other: Buttons) {
      (left && other.left) || (right && other.right) || (middle && other.middle)
    }

    predicate Covers(other: Buttons) {
      (other.left ==> left) && (other.right ==> right) && (other.middle ==> middle)
    }

    function Join(other: Buttons): Buttons {
      Buttons(left || other.left, right || other.right, middle || other.middle)
    }
  }

  const NONE := Buttons(false, false, false)
}
