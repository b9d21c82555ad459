/** `ExitCodes`: the two process exit codes, numbered from zero as `range(0, 2)` numbers them. */
module ExitCodes {

  datatype ExitCode = OK | FAIL
  {
    function Code(): (n: nat)
      ensures n < 2
      ensures n == 0 <==> this == OK
    {
      if this == OK then 0 else 1
    }
  }
}
