/** The three confidence ratings every classifier attaches to what it reports. */
module Ratings {
  datatype Confidence = Low | Med | High
}
