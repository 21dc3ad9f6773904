// Small shared definitions.
module Base {

  datatype Option<+T> = None | Some(value: T)

  // Decimal rendering of a count, as the notices and messages print it.
  function Digits(n: nat): string {
    if n < 10 then ["0123456789"[n]] else Digits(n / 10) + ["0123456789"[n % 10]]
  }
}
