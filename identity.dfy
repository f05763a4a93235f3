/**
 * The advertised device name (`set_host_name`): the host's name, a dash and a
 * device number that is read from the identity file, or drawn as four
 * distinct decimal digits and stored there when the file does not exist yet.
 */
module Identity {
  import opened Wrappers

  predicate IsDigit(c: char) {
    '0' <= c <= '9'
  }

  /** What `''.join(random.sample(string.digits, 4))` can yield. */
  predicate IsDeviceNumber(id: string) {
    |id| == 4
    && (forall k :: 0 <= k < |id| ==> IsDigit(id[k]))
    && (forall i, j :: 0 <= i < j < |id| ==> id[i] != id[j])
  }

  /** The alias `"%s-%s" % (hostname, number)`. */
  function DeviceName(hostname: string, number: string): string {
    hostname + "-" + number
  }

  /** The position of the last dash in `s`, or -1 when there is none. */
  function LastDash(s: string): (i: int)
    ensures -1 <= i < |s|
    ensures i >= 0 ==> s[i] == '-'
    ensures forall k :: i < k < |s| ==> s[k] != '-'
  {
    if s == [] then -1
    else if s[|s| - 1] == '-' then |s| - 1
    else LastDash(s[..|s| - 1])
  }

  /** A device name taken apart at its last dash into host name and device number. */
  function SplitDeviceName(name: string): Option<(string, string)> {
    var i := LastDash(name);
    if i < 0 then None else Some((name[..i], name[i + 1..]))
  }

  /** A number without a dash is recovered from the name, whatever dashes the host name holds. */
  lemma SplitDeviceNameInverts(hostname: string, number: string)
    requires forall k :: 0 <= k < |number| ==> number[k] != '-'
    ensures SplitDeviceName(DeviceName(hostname, number)) == Some((hostname, number))
  {
    var name := DeviceName(hostname, number);
    var h := |hostname|;
    assert name[h] == '-';
    assert forall k :: h < k < |name| ==> name[k] == number[k - h - 1];
    assert LastDash(name) == h;
    assert name[..h] == hostname;
    assert name[h + 1..] == number;
  }

  /** Every name built from a drawn number ends in that number. */
  lemma DeviceNumberRecovered(hostname: string, number: string)
    requires IsDeviceNumber(number)
    ensures SplitDeviceName(DeviceName(hostname, number)) == Some((hostname, number))
  {
    SplitDeviceNameInverts(hostname, number);
  }

  /**
   * The rule `set_host_name` follows: with a stored number it is kept and
   * used; without one, a drawn number is stored and used.
   */
  ghost predicate NameChosen(hostname: string, before: Option<string>, after: Option<string>, name: string) {
    match before
    case Some(number) => after == before && name == DeviceName(hostname, number)
    case None => after.Some? && IsDeviceNumber(after.value) && name == DeviceName(hostname, after.value)
  }

  /**
   * Two startups in a row on the same host advertise the same name, and the
   * second leaves the file as the first left it.
   */
  lemma NameStable(hostname: string, store0: Option<string>, store1: Option<string>, store2: Option<string>,
                   first: string, second: string)
    requires NameChosen(hostname, store0, store1, first)
    requires NameChosen(hostname, store1, store2, second)
    ensures first == second && store2 == store1
  {
  }

  /** The identity file `/etc/bluetooth-id`: absent, or holding the text last written. */
  class IdentityFile {
    var content: Option<string>

    constructor (content: Option<string>)
      ensures this.content == content
    {
      this.content := content;
    }
  }
}
