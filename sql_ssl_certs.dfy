/**
 * Getting and deleting a Cloud SQL SSL certificate by its common name:
 * both commands list the instance's certificates and act on the first one
 * whose common name matches; deleting issues one delete request for that
 * certificate's SHA-1 fingerprint.
 *
 * Listing the certificates and executing the delete request are
 * parameters.
 */
module SqlSslCerts {
  import opened Wrappers
  import opened Commands

  /** A listed certificate; `cert.get(...)` of an absent key is None. */
  datatype SslCert = SslCert(commonName: Option<string>, sha1Fingerprint: Option<string>, cert: string)

  /** `sslCerts().delete(project=…, instance=…, sha1Fingerprint=…)`. */
  datatype DeleteRequest = DeleteRequest(project: string, instance: string, sha1Fingerprint: Option<string>)

  const NoSuchCertMessage := "Cert with the provided common name doesn't exist."

  predicate Named(cert: SslCert, commonName: string)
  {
    cert.commonName == Some(commonName)
  }

  /** The index of the first certificate with the common name, if any. */
  function FirstMatch(items: seq<SslCert>, commonName: string): (r: Option<nat>)
    ensures r.Some? ==> r.value < |items| && Named(items[r.value], commonName)
    ensures r.Some? ==> forall i :: 0 <= i < r.value ==> !Named(items[i], commonName)
    ensures r.None? <==> forall i :: 0 <= i < |items| ==> !Named(items[i], commonName)
  {
    if items == [] then None
    else if Named(items[0], commonName) then Some(0)
    else
      var rest := FirstMatch(items[1..], commonName);
      if rest.None? then None else Some(rest.value + 1)
  }

  /** Scans the list in order and stops at the first certificate with the common name. */
  method FindCert(items: seq<SslCert>, commonName: string) returns (found: Option<SslCert>)
    ensures FirstMatch(items, commonName).None? ==> found.None?
    ensures FirstMatch(items, commonName).Some? ==> found == Some(items[FirstMatch(items, commonName).value])
  {
    var i := 0;
    while i < |items|
      invariant 0 <= i <= |items|
      invariant forall k :: 0 <= k < i ==> !Named(items[k], commonName)
    {
      if items[i].commonName == Some(commonName) {
        FirstMatchAt(items, commonName, i);
        return Some(items[i]);
      }
      i := i + 1;
    }
    return None;
  }

  /** A match with no match before it is the first match. */
  lemma FirstMatchAt(items: seq<SslCert>, commonName: string, i: nat)
    requires i < |items| && Named(items[i], commonName)
    requires forall k :: 0 <= k < i ==> !Named(items[k], commonName)
    ensures FirstMatch(items, commonName) == Some(i)
  {
  }

  /**
   * `sql ssl-certs get`: the first certificate with the common name,
   * exactly as listed. A missing one is a tool error; a failed listing is
   * an HTTP error or a tool error.
   */
  method Get(listing: Call<seq<SslCert>>, commonName: string) returns (r: Result<SslCert, CommandError>)
    ensures listing.HttpError? ==> r == Err(HttpException(listing.error))
    ensures listing.OtherError? ==> r == Err(ToolException(listing.error))
    ensures listing.Returned? && FirstMatch(listing.value, commonName).None? ==>
      r == Err(ToolException(NoSuchCertMessage))
    ensures listing.Returned? && FirstMatch(listing.value, commonName).Some? ==>
      r == Ok(listing.value[FirstMatch(listing.value, commonName).value])
  {
    match listing
    case HttpError(error) => return Err(HttpException(error));
    case OtherError(error) => return Err(ToolException(error));
    case Returned(items) =>
      var found := FindCert(items, commonName);
      if found.None? {
        return Err(ToolException(NoSuchCertMessage));
      }
      return Ok(found.value);
  }

  /**
   * `sql ssl-certs delete`: one delete request for the first certificate
   * with the common name, sent to the instance's project, and the
   * resulting operation. Only HTTP errors are caught; other API errors
   * leave the command as they are. `issued` lists the delete requests sent.
   */
  method Delete(instance: SqlInstance, listing: Call<seq<SslCert>>, commonName: string,
                execute: DeleteRequest -> Call<string>)
    returns (r: Result<SqlOperation, CommandError>, issued: seq<DeleteRequest>)
    ensures |issued| <= 1
    ensures !listing.Returned? ==> issued == []
    ensures listing.HttpError? ==> r == Err(HttpException(listing.error))
    ensures listing.OtherError? ==> r == Err(Uncaught(listing.error))
    ensures listing.Returned? && FirstMatch(listing.value, commonName).None? ==>
      issued == [] && r == Err(ToolException(NoSuchCertMessage))
    ensures listing.Returned? && FirstMatch(listing.value, commonName).Some? ==>
      var cert := listing.value[FirstMatch(listing.value, commonName).value];
      && issued == [DeleteRequest(instance.project, instance.instance, cert.sha1Fingerprint)]
      && r == match execute(issued[0])
              case Returned(operation) => Ok(SqlOperation(instance, operation))
              case HttpError(error) => Err(HttpException(error))
              case OtherError(error) => Err(Uncaught(error))
  {
    issued := [];
    match listing
    case HttpError(error) => return Err(HttpException(error)), issued;
    case OtherError(error) => return Err(Uncaught(error)), issued;
    case Returned(items) =>
      var found := FindCert(items, commonName);
      if found.None? {
        return Err(ToolException(NoSuchCertMessage)), issued;
      }
      var request := DeleteRequest(instance.project, instance.instance, found.value.sha1Fingerprint);
      issued := [request];
      match execute(request)
      case Returned(operation) => r := Ok(SqlOperation(instance, operation));
      case HttpError(error) => r := Err(HttpException(error));
      case OtherError(error) => r := Err(Uncaught(error));
  }
}
