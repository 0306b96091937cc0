/**
 * Month keys and folder names.  A key is the first seven characters of an
 * RFC 3339 creation time ("2007-09"); the year folder is named by its first four
 * characters and the month folder by the English month name, as Python's
 * `calendar.month_name` gives it in the default C locale.
 */
module Months {

  /** Python's `s[lo:hi]`, which clamps both bounds to the string. */
  function Slice(s: string, lo: nat, hi: nat): (r: string)
    ensures |r| <= |s|
  {
    var h := if hi < |s| then hi else |s|;
    var l := if lo < h then lo else h;
    s[l..h]
  }

  /** `createdTime[0:7]`. */
  function MonthKey(createdTime: string): string
  {
    Slice(createdTime, 0, 7)
  }

  predicate IsDigit(c: char) { '0' <= c <= '9' }

  function DigitValue(c: char): nat
    requires IsDigit(c)
  {
    c as int - '0' as int
  }

  /** A key "YYYY-MM" whose month is 01 to 12. */
  predicate IsKey(key: string)
  {
    && |key| == 7
    && IsDigit(key[0]) && IsDigit(key[1]) && IsDigit(key[2]) && IsDigit(key[3])
    && key[4] == '-'
    && IsDigit(key[5]) && IsDigit(key[6])
    && 1 <= 10 * DigitValue(key[5]) + DigitValue(key[6]) <= 12
  }

  /** Creation times as the service stamps them: they begin with a key. */
  predicate ValidStamp(createdTime: string)
  {
    IsKey(MonthKey(createdTime))
  }

  /** `key[0:4]`, the year folder's name. */
  function YearName(key: string): string
  {
    Slice(key, 0, 4)
  }

  /** `int(key[5:7])`. */
  function MonthNumber(key: string): (m: int)
    requires IsKey(key)
    ensures 1 <= m <= 12
  {
    10 * DigitValue(key[5]) + DigitValue(key[6])
  }

  /** `calendar.month_name`: index 0 is the empty string. */
  const MonthNames: seq<string> := ["", "January", "February", "March", "April", "May", "June",
                                    "July", "August", "September", "October", "November", "December"]

  function MonthName(month: int): string
    requires 1 <= month <= 12
  {
    MonthNames[month]
  }

  /** The month folder's name for a key. */
  function MonthFolderName(key: string): string
    requires IsKey(key)
  {
    MonthName(MonthNumber(key))
  }

  /** Two keys with different month numbers get different month folder names. */
  lemma MonthFolderNamesDistinct(key1: string, key2: string)
    requires IsKey(key1) && IsKey(key2) && MonthNumber(key1) != MonthNumber(key2)
    ensures MonthFolderName(key1) != MonthFolderName(key2)
  {
  }
}
