/** `check_mode`: which way the disassembler is invoked for an architecture
    name.  Mode 1 writes the raw 8 bytes and runs `nvdisasm`; modes 2 and 3
    patch a container template and run `cuobjdump`; 0 means "unknown". */
module Arch {

  const RawNames: set<string> := {"SM21", "Fermi", "SM35", "Kepler"}
  const MaxwellNames: set<string> := {"SM52", "Maxwell"}
  const PascalNames: set<string> := {"SM60", "Pascal"}

  function CheckMode(arch: string): (m: int)
    ensures 0 <= m <= 3
    ensures m == 1 <==> arch in RawNames
    ensures m == 2 <==> arch in MaxwellNames
    ensures m == 3 <==> arch in PascalNames
    ensures m == 0 <==> arch !in RawNames + MaxwellNames + PascalNames
  {
    if arch == "SM21" || arch == "Fermi" || arch == "SM35" || arch == "Kepler" then 1
    else if arch == "SM52" || arch == "Maxwell" then 2
    else if arch == "SM60" || arch == "Pascal" then 3
    else 0
  }
}
