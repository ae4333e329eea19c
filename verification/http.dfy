/** The HTTP exception the endpoints raise and catch. */
module Http {
  import Text

  /** An `HTTPException(status_code, detail)`. */
  datatype HttpError = HttpError(statusCode: int, detail: string) {

    /** `str(e)`: Starlette renders an HTTP exception as `"<status_code>: <detail>"`. */
    function Str(): (s: string)
      ensures |s| > |detail| + 2 && s[|s| - |detail|..] == detail
      ensures s[|s| - |detail| - 2..|s| - |detail|] == ": "
    {
      Text.IntToString(statusCode) + ": " + detail
    }
  }

  /** The two status codes the endpoints raise print as themselves. */
  lemma CodeTexts()
    ensures Text.IntToString(400) == "400" && Text.IntToString(500) == "500"
  {
    assert Text.NatToString(4) == "4" && Text.NatToString(5) == "5";
    assert Text.NatToString(40) == "40" && Text.NatToString(50) == "50";
    assert Text.NatToString(400) == "400" && Text.NatToString(500) == "500";
  }

  /** How a 400 and a 500 print. */
  lemma ClientAndServerErrorTexts(detail: string)
    ensures HttpError(400, detail).Str() == "400: " + detail
    ensures HttpError(500, detail).Str() == "500: " + detail
  {
    CodeTexts();
    assert "400" + ": " + detail == "400: " + detail;
    assert "500" + ": " + detail == "500: " + detail;
  }

  /** `str(KeyError(key))`: the key's repr, here in single quotes. */
  function KeyErrorText(key: string): (s: string)
    ensures |s| == |key| + 2 && s[0] == '\'' && s[|s| - 1] == '\'' && s[1..|s| - 1] == key
  {
    "'" + key + "'"
  }
}
